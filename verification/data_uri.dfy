/** `data:` URIs in their base64 form (section 3 of RFC 2397):
    `data:<mediatype>;base64,<data>`. The parser is the reference partner
    that recovers the media type and payload a URI was built from. */
module DataUri {
  import opened Wrappers
  import Base64
  import opened Text

  const Scheme: string := "data:"
  const Marker: string := ";base64"

  function Make(mime: string, payload: string): string {
    Scheme + mime + Marker + "," + payload
  }

  predicate NoComma(s: string) {
    forall i :: 0 <= i < |s| ==> s[i] != ','
  }

  /** Index of the last `c` in `s`, if any. */
  function LastIndexOf(s: string, c: char): (r: Option<nat>)
    ensures r.Some? ==> r.value < |s| && s[r.value] == c
    ensures r.Some? ==> forall i :: r.value < i < |s| ==> s[i] != c
    ensures r.None? ==> forall i :: 0 <= i < |s| ==> s[i] != c
    decreases |s|
  {
    if |s| == 0 then None
    else if s[|s| - 1] == c then Some(|s| - 1)
    else
      var r := LastIndexOf(s[..|s| - 1], c);
      assert forall i :: 0 <= i < |s| - 1 ==> s[..|s| - 1][i] == s[i];
      r
  }

  /** Splits a base64 `data:` URI into its media type and payload. The
      payload is taken after the LAST comma: the base64 alphabet has none. */
  function Parse(uri: string): Option<(string, string)> {
    if !HasPrefix(uri, Scheme) then None
    else
      var k :- LastIndexOf(uri, ',');
      var head := uri[..k];
      if |head| < |Scheme| + |Marker| || head[|head| - |Marker|..] != Marker then None
      else Some((head[|Scheme|..|head| - |Marker|], uri[k + 1..]))
  }

  lemma NoCommaInBase64(b: seq<Base64.byte>)
    ensures NoComma(Base64.Encode(b))
  {
    var t := Base64.Encode(b);
    forall i | 0 <= i < |t| ensures t[i] != ',' {
      assert Base64.InAlphabet(t[i]) || t[i] == Base64.Pad;
    }
  }

  /** A URI built from a comma-free payload parses back into the media
      type and payload it was built from, whatever the media type holds. */
  lemma ParseMake(mime: string, payload: string)
    requires NoComma(payload)
    ensures Parse(Make(mime, payload)) == Some((mime, payload))
  {
    var uri := Make(mime, payload);
    var k := |Scheme| + |mime| + |Marker|;
    assert uri[k] == ',';
    assert uri[..|Scheme|] == Scheme;
    var r := LastIndexOf(uri, ',');
    assert forall i :: k < i < |uri| ==> uri[i] == payload[i - k - 1];
    assert r == Some(k);
    var head := uri[..k];
    assert head == Scheme + mime + Marker;
    assert head[|head| - |Marker|..] == Marker;
    assert head[|Scheme|..|head| - |Marker|] == mime;
    assert uri[k + 1..] == payload;
  }

  /** Every URI the parser accepts is rebuilt exactly from its parts. */
  lemma MakeParse(uri: string, mime: string, payload: string)
    requires Parse(uri) == Some((mime, payload))
    ensures Make(mime, payload) == uri
  {
    var k := LastIndexOf(uri, ',').value;
    var head := uri[..k];
    assert head == Scheme + mime + Marker;
    assert uri == head + "," + payload;
  }
}

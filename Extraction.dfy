/** Positional extraction of the identity token from a redirect `Location`
    header: the text from nine characters past the first `id_token=` to the
    first `&access_token`, with `substring`'s clamping and swapping. This is
    not a keyed lookup of a fragment parameter: the positions are taken as
    found, whatever lies between them. */
module Extraction {
  import opened JsString

  const IdTokenMarker: string := "id_token="
  const AccessTokenMarker: string := "&access_token"

  /** The literal offset added to the start position; it equals the length of
      `IdTokenMarker`, so the token starts just after the marker. */
  const StartOffset: int := 9

  /** `header.substring(header.indexOf('id_token=') + 9, header.indexOf('&access_token'))` */
  function Extract(header: string): (token: string)
    ensures IsSliceOf(token, header)
  {
    Substring(header, IndexOf(header, IdTokenMarker) + StartOffset, IndexOf(header, AccessTokenMarker))
  }

  /** The usual case: both markers are present, the first `&access_token`
      does not start before the end of the first `id_token=`, and the token is
      exactly the text between them. */
  lemma ExtractBetweenMarkers(header: string, i: int, j: int)
    requires IsFirstOccurrence(header, IdTokenMarker, i)
    requires IsFirstOccurrence(header, AccessTokenMarker, j)
    requires i + StartOffset <= j
    ensures Extract(header) == header[i + StartOffset..j]
  {
    IndexOfIsFirst(header, IdTokenMarker, i);
    IndexOfIsFirst(header, AccessTokenMarker, j);
  }

  /** Both markers present but the first `&access_token` starts before the
      token would: `substring` swaps the positions and the result is the
      text from `&access_token` up to just after `id_token=`, not a token. */
  lemma ExtractSwapsWhenReordered(header: string, i: int, j: int)
    requires IsFirstOccurrence(header, IdTokenMarker, i)
    requires IsFirstOccurrence(header, AccessTokenMarker, j)
    requires j < i + StartOffset
    ensures Extract(header) == header[j..i + StartOffset]
  {
    IndexOfIsFirst(header, IdTokenMarker, i);
    IndexOfIsFirst(header, AccessTokenMarker, j);
  }

  /** Without `&access_token` the end position is -1, which clamps to 0, so
      the result is the prefix of the header that ends just after the first
      `id_token=` (or at position 8 when that marker is missing too), cut at
      the header's length. */
  lemma ExtractWithoutAccessTokenMarker(header: string)
    requires !Contains(header, AccessTokenMarker)
    ensures Contains(header, IdTokenMarker) ==>
      Extract(header) == header[..Min(IndexOf(header, IdTokenMarker) + StartOffset, |header|)]
    ensures !Contains(header, IdTokenMarker) ==> Extract(header) == header[..Min(8, |header|)]
  {
  }

  /** Without `id_token=` the start position is -1 + 9 = 8, whatever the
      header: the result runs from position 8 to the first `&access_token`,
      swapped when that marker starts before position 8, and cut at 8 when the
      marker is missing. */
  lemma ExtractWithoutIdTokenMarker(header: string)
    requires !Contains(header, IdTokenMarker)
    ensures 8 <= IndexOf(header, AccessTokenMarker) ==>
      Extract(header) == header[8..IndexOf(header, AccessTokenMarker)]
    ensures 0 <= IndexOf(header, AccessTokenMarker) < 8 ==>
      Extract(header) == header[IndexOf(header, AccessTokenMarker)..Min(8, |header|)]
    ensures 8 <= |header| && !Contains(header, AccessTokenMarker) ==> Extract(header) == header[..8]
  {
  }

  /** The empty header (a present but empty `Location` value) extracts "". */
  lemma ExtractOfEmpty()
    ensures Extract("") == ""
  {
  }

  /** A redirect whose first `id_token=` follows `prefix` and whose first
      `&access_token` follows the token directly: exactly the token is
      extracted, whatever `prefix`, `token` and `rest` contain otherwise. */
  lemma ExtractWellFormed(prefix: string, token: string, rest: string)
    requires IsFirstOccurrence(prefix + IdTokenMarker, IdTokenMarker, |prefix|)
    requires IsFirstOccurrence(prefix + IdTokenMarker + token + AccessTokenMarker, AccessTokenMarker,
                               |prefix| + |IdTokenMarker| + |token|)
    ensures Extract(prefix + IdTokenMarker + token + AccessTokenMarker + rest) == token
  {
    var withId := prefix + IdTokenMarker;
    var withToken := withId + token;
    var withAccess := withToken + AccessTokenMarker;
    var header := withAccess + rest;
    FirstOccurrenceExtends(withId, token, IdTokenMarker, |prefix|);
    FirstOccurrenceExtends(withToken, AccessTokenMarker, IdTokenMarker, |prefix|);
    FirstOccurrenceExtends(withAccess, rest, IdTokenMarker, |prefix|);
    FirstOccurrenceExtends(withAccess, rest, AccessTokenMarker, |withToken|);
    ExtractBetweenMarkers(header, |prefix|, |withToken|);
    SliceOfExtension(withAccess, rest, |withId|, |withToken|);
    SliceOfExtension(withToken, AccessTokenMarker, |withId|, |withToken|);
    DropOfExtension(withId, token, |withId|);
  }

  /** A redirect of the shape the hosted login page produces. */
  lemma ExtractExample()
    ensures Extract(".../cb#id_token=ABC123&access_token=XYZ") == "ABC123"
  {
    var prefix, token, rest := ".../cb#", "ABC123", "=XYZ";
    SpellExample(prefix, token, rest);
    FirstOccurrenceAfter(prefix, IdTokenMarker);
    assert '&' !in prefix + IdTokenMarker + token;
    FirstOccurrenceAfter(prefix + IdTokenMarker + token, AccessTokenMarker);
    ExtractWellFormed(prefix, token, rest);
  }

  lemma SpellExample(prefix: string, token: string, rest: string)
    requires prefix == ".../cb#" && token == "ABC123" && rest == "=XYZ"
    ensures prefix + IdTokenMarker + token + AccessTokenMarker + rest
         == ".../cb#id_token=ABC123&access_token=XYZ"
  {
  }

  /** The same parameters in the other order: when `&access_token` comes
      before `id_token=`, `substring` swaps the positions and the extraction
      silently returns the text from `&access_token` through `id_token=`,
      never the identity token. */
  lemma ExtractReordered(prefix: string, middle: string, rest: string)
    requires IsFirstOccurrence(prefix + AccessTokenMarker, AccessTokenMarker, |prefix|)
    requires IsFirstOccurrence(prefix + AccessTokenMarker + middle + IdTokenMarker, IdTokenMarker,
                               |prefix| + |AccessTokenMarker| + |middle|)
    ensures Extract(prefix + AccessTokenMarker + middle + IdTokenMarker + rest)
         == AccessTokenMarker + middle + IdTokenMarker
  {
    var withAccess := prefix + AccessTokenMarker;
    var withMiddle := withAccess + middle;
    var withId := withMiddle + IdTokenMarker;
    var header := withId + rest;
    FirstOccurrenceExtends(withAccess, middle, AccessTokenMarker, |prefix|);
    FirstOccurrenceExtends(withMiddle, IdTokenMarker, AccessTokenMarker, |prefix|);
    FirstOccurrenceExtends(withId, rest, AccessTokenMarker, |prefix|);
    FirstOccurrenceExtends(withId, rest, IdTokenMarker, |withMiddle|);
    ExtractSwapsWhenReordered(header, |withMiddle|, |prefix|);
    SliceOfExtension(withId, rest, |prefix|, |withId|);
    DropOfExtension(prefix, AccessTokenMarker, |prefix|);
    DropOfExtension(withAccess, middle, |prefix|);
    DropOfExtension(withMiddle, IdTokenMarker, |prefix|);
  }

  /** An instance of the reordered case. */
  lemma ExtractReorderedExample()
    ensures Extract("#state=S&access_token=XYZ&id_token=ABC") == "&access_token=XYZ&id_token="
  {
    var prefix, middle, rest := "#state=S", "=XYZ&", "ABC";
    SpellReordered(prefix, middle, rest);
    FirstOccurrenceAfter(prefix, AccessTokenMarker);
    assert 'i' !in prefix + AccessTokenMarker + middle;
    FirstOccurrenceAfter(prefix + AccessTokenMarker + middle, IdTokenMarker);
    ExtractReordered(prefix, middle, rest);
  }

  lemma SpellReordered(prefix: string, middle: string, rest: string)
    requires prefix == "#state=S" && middle == "=XYZ&" && rest == "ABC"
    ensures prefix + AccessTokenMarker + middle + IdTokenMarker + rest
         == "#state=S&access_token=XYZ&id_token=ABC"
    ensures AccessTokenMarker + middle + IdTokenMarker == "&access_token=XYZ&id_token="
  {
  }
}

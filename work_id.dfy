/** Extracting a work's identifier from a URL: the path segment after the
    first "works" segment, cut at "?" and read with `parseInt`. */
module WorkIds {
  import opened Prelude
  import opened Strings
  import opened Numbers

  /** The identifier a segment yields: `parseInt` of the text before its
      first "?", or `None` (undefined) when that is not an integer. */
  function SegmentId(segment: string): Option<int>
  {
    match ParseInt(Split(segment, "?")[0])
    case Int(v) => Some(v)
    case NaN => None
  }

  /** `WorkIdFromUrl(url)`; `Ok(None)` is the `undefined` it returns, and a
      URL whose last segment is the first "works" fails with `TypeError`
      because the length check before the lookup always passes. */
  function WorkIdFromUrl(url: string): Result<Option<int>>
  {
    var parts := Split(url, "/");
    var index := IndexOf(parts, "works");
    if index == -1 then Ok(None)
    else if index + 1 == |parts| then Err(TypeError)
    else Ok(SegmentId(parts[index + 1]))
  }

  // ---------------------------------------------------------------------
  // Properties

  /** No "works" segment: undefined. */
  lemma NoWorksSegment(url: string)
    requires "works" !in Split(url, "/")
    ensures WorkIdFromUrl(url) == Ok(None)
  {
  }

  /** For a URL made of "/"-free segments, only the segment after the first
      "works" matters; when there is none, the lookup fails. */
  lemma WorkIdOfSegments(before: seq<string>, after: seq<string>)
    requires "works" !in before
    requires forall i :: 0 <= i < |before| ==> '/' !in before[i]
    requires forall i :: 0 <= i < |after| ==> '/' !in after[i]
    ensures WorkIdFromUrl(Join(before + ["works"] + after, "/")) ==
      if |after| == 0 then Err(TypeError) else Ok(SegmentId(after[0]))
  {
    var parts := before + ["works"] + after;
    forall i | 0 <= i < |parts| ensures '/' !in parts[i] {
      if i < |before| {
        assert parts[i] == before[i];
      } else if i > |before| {
        assert parts[i] == after[i - |before| - 1];
      }
    }
    SplitJoin(parts, '/');
    assert "/" == ['/'];
    assert parts[..|before|] == before;
    var index := IndexOf(parts, "works");
    assert parts[|before|] == "works";
    assert index == |before|;
  }

  /** A segment of digits, then text that does not start with a digit,
      then an optional query yields the digits' value: "123abc" yields 123
      and "456?view_adult=true" yields 456. */
  lemma SegmentOfDigits(digits: string, tail: string, query: string)
    requires IsDigits(digits)
    requires |tail| == 0 || !IsDecimalDigit(tail[0])
    requires digits == "0" ==> |tail| == 0 || (tail[0] != 'x' && tail[0] != 'X')
    requires '?' !in tail
    requires |query| == 0 || query[0] == '?'
    ensures SegmentId(digits + tail + query) == Some(ValueOf(digits, false))
  {
    assert '?' !in digits + tail by {
      forall i | 0 <= i < |digits + tail| ensures (digits + tail)[i] != '?' {
        if i < |digits| {
          assert IsDecimalDigit(digits[i]);
        }
      }
    }
    SplitHead(digits + tail, '?', query);
    assert "?" == ['?'];
    ParseIntIgnoresTail(digits, tail, true);
  }
}

/**
 * The string helpers of src/text.c. Every string is a C string: the characters
 * before its terminating NUL. Indices are positions in that string; position
 * `|s|` is the terminator itself, which the C code is allowed to read.
 */
module Text {
  import opened Wrappers

  /** The terminating character of a C string. */
  const NUL: char := '\0'

  /** The characters of a C string, before its terminating NUL. */
  type CString = s: string | NUL !in s

  /** `s[k]` read from the NUL-terminated buffer that holds `s`: index `|s|` is the terminator. */
  function CharAt(s: CString, k: nat): char
    requires k <= |s|
  {
    if k < |s| then s[k] else NUL
  }

  /** What `strlen`, `strstr` and the functions below see of a raw buffer: its characters up to the first NUL. */
  function CStringOf(raw: string): (s: CString)
    ensures |s| <= |raw| && s == raw[..|s|]
    ensures |s| < |raw| ==> raw[|s|] == NUL
  {
    if raw == [] || raw[0] == NUL then []
    else
      var rest := CStringOf(raw[1..]);
      assert [raw[0]] + rest == raw[..|rest| + 1];
      [raw[0]] + rest
  }

  // ---------------------------------------------------------------------------
  // substr

  /** The value `substr` returns: the slice `[start, end)`, or NULL when the bounds are illegal. */
  function Slice(s: CString, start: nat, end: nat): (r: Option<CString>)
    ensures r.Some? <==> start <= end <= |s|
    ensures r.Some? ==> |r.value| == end - start && r.value == s[start..end]
  {
    if start <= end <= |s| then Some(s[start..end]) else None
  }

  /**
   * substr: copies `source[start..end)` character by character into a fresh buffer.
   * Returns NULL exactly when either index lies beyond the string or `start > end`.
   * The copy has `end - start` characters (not the `+ 1` of the comment above the C function).
   */
  method Substr(source: CString, start: nat, end: nat) returns (r: Option<CString>)
    ensures r.None? <==> start > |source| || end > |source| || start > end
    ensures r.Some? ==> r.value == source[start..end] && |r.value| == end - start
    ensures r == Slice(source, start, end)
  {
    if start > |source| || end > |source| || start > end {
      return None;
    }
    assert forall k :: 0 <= k < |source| ==> source[k] != NUL;
    var substring := new char[end - start];
    var idx := start;
    while idx < end && CharAt(source, idx) != NUL
      invariant start <= idx <= end
      invariant substring[..idx - start] == source[start..idx]
    {
      substring[idx - start] := source[idx];
      idx := idx + 1;
    }
    assert substring[..] == substring[..idx - start];
    return Some(substring[..]);
  }

  // ---------------------------------------------------------------------------
  // Searching

  /** `t` occurs in `s` starting at position `k`. */
  predicate OccursAt(s: string, t: string, k: nat)
  {
    k + |t| <= |s| && s[k..k + |t|] == t
  }

  /**
   * The first position at or after `from` where `t` occurs in `s` (what `strstr`
   * finds when `from` is 0; an empty `t` occurs everywhere).
   */
  function FirstOccurrence(s: string, t: string, from: nat): (r: Option<nat>)
    ensures r.Some? ==> from <= r.value && OccursAt(s, t, r.value)
    ensures r.Some? ==> forall k :: from <= k < r.value ==> !OccursAt(s, t, k)
    ensures r.None? ==> forall k :: from <= k ==> !OccursAt(s, t, k)
    decreases |s| - from
  {
    if |s| < from + |t| then None
    else if OccursAt(s, t, from) then Some(from)
    else FirstOccurrence(s, t, from + 1)
  }

  /** An occurrence with none before it is the first occurrence. */
  lemma FirstOccurrenceIs(s: string, t: string, from: nat, e: nat)
    requires from <= e && OccursAt(s, t, e)
    requires forall k :: from <= k < e ==> !OccursAt(s, t, k)
    ensures FirstOccurrence(s, t, from) == Some(e)
  {
  }

  /**
   * The value `find_index_of_substring_in_string_beginning_from` returns, with
   * `None` for its `(size_t)-1`: the first occurrence of `t` at or after
   * `from`; never found for an empty `t` or a start beyond the string.
   */
  function FindIndex(s: CString, t: CString, from: nat): (r: Option<nat>)
    ensures r.Some? ==> |t| > 0 && from <= r.value && r.value + |t| <= |s| && s[r.value..r.value + |t|] == t
    ensures from + |t| > |s| ==> r.None?
  {
    if |s| < from || |s| - from < |t| || |t| == 0 then None
    else FirstOccurrence(s, t, from)
  }

  /**
   * The search finds the first occurrence: none lies between `from` and the
   * position found, and nothing is found exactly when the needle is empty, the
   * start lies beyond the string, or there is no occurrence from `from` on.
   */
  lemma FindIndexIsFirst(s: CString, t: CString, from: nat)
    ensures var r := FindIndex(s, t, from);
      (r.Some? ==> forall k :: from <= k < r.value ==> !OccursAt(s, t, k)) &&
      (r.None? <==> |t| == 0 || from > |s| || forall k :: from <= k ==> !OccursAt(s, t, k))
  {
  }

  /**
   * find_index_of_substring_in_string_beginning_from: for each position from
   * `beginFrom` on, compares `substring` character by character and returns the
   * first position where all of it matches.
   */
  method FindIndexOfSubstring(str: CString, substring: CString, beginFrom: nat) returns (r: Option<nat>)
    ensures r == FindIndex(str, substring, beginFrom)
  {
    if |str| < beginFrom {
      return None;
    }
    if |str| - beginFrom < |substring| {
      return None;
    }
    assert forall k :: 0 <= k < |str| ==> str[k] != NUL;
    var idx: Option<nat> := None;
    var strIdx := beginFrom;
    while CharAt(str, strIdx) != NUL
      invariant beginFrom <= strIdx <= |str|
      invariant idx == None
      invariant |substring| > 0 ==> forall k :: beginFrom <= k < strIdx ==> !OccursAt(str, substring, k)
      decreases |str| - strIdx
    {
      idx := None;
      var subIdx := 0;
      while subIdx < |substring|
        invariant 0 <= subIdx <= |substring|
        invariant strIdx + subIdx <= |str|
        invariant str[strIdx..strIdx + subIdx] == substring[..subIdx]
        invariant idx == if subIdx == 0 then None else Some(strIdx)
      {
        if CharAt(str, strIdx + subIdx) != substring[subIdx] {
          idx := None;
          break;
        }
        assert substring[subIdx] in substring;
        idx := Some(strIdx);
        subIdx := subIdx + 1;
      }
      if idx.Some? {
        assert substring[..subIdx] == substring;
        FirstOccurrenceIs(str, substring, beginFrom, strIdx);
        return idx;
      }
      strIdx := strIdx + 1;
    }
    return idx;
  }

  // ---------------------------------------------------------------------------
  // copy_text_between

  /** Why copy_text_between copies nothing. */
  datatype BetweenError =
    | LeftDelimiterMissing   // status code 1
    | RightDelimiterMissing  // status code 2
    | ReadsPastTerminator    // the left delimiter ends the string: the search for the right one starts past the NUL

  /**
   * copy_text_between: the text after the first occurrence of `left` up to the
   * next occurrence of `right`, both excluded. The search for `right` begins one
   * character after the start of the text, so a copied text is never empty.
   */
  function CopyTextBetween(s: CString, left: CString, right: CString): (r: Result<CString, BetweenError>)
    ensures r.Success? ==> |r.value| >= 1
  {
    match FirstOccurrence(s, left, 0)
    case None => Failure(LeftDelimiterMissing)
    case Some(p) =>
      var start := p + |left|;
      if start == |s| then Failure(ReadsPastTerminator)
      else
        match FirstOccurrence(s, right, start + 1)
        case None => Failure(RightDelimiterMissing)
        case Some(q) => Success(s[start..q])
  }

  /**
   * copy_text_between: finds the left delimiter with `strstr`, skips it,
   * finds the right delimiter from one character further on, and copies the
   * text in between character by character (`strncpy`) into a fresh buffer.
   */
  method CopyDelimitedText(s: CString, left: CString, right: CString) returns (r: Result<CString, BetweenError>)
    ensures r == CopyTextBetween(s, left, right)
  {
    var found := FirstOccurrence(s, left, 0);
    if found.None? {
      return Failure(LeftDelimiterMissing);
    }
    var start := found.value + |left|;
    if start == |s| {
      return Failure(ReadsPastTerminator);
    }
    var end := FirstOccurrence(s, right, start + 1);
    if end.None? {
      return Failure(RightDelimiterMissing);
    }
    var textLen := end.value - start;
    var text := new char[textLen + 1];
    var i := 0;
    while i < textLen
      invariant 0 <= i <= textLen
      invariant text[..i] == s[start..start + i]
    {
      text[i] := s[start + i];
      i := i + 1;
    }
    text[textLen] := NUL;
    assert s[start..end.value] == text[..textLen];
    return Success(text[..textLen]);
  }

  /**
   * What copy_text_between finds: status 1 exactly when `left` does not occur;
   * otherwise, with `start` just after the first `left`, the text is the span from
   * `start` to the first `right` that begins after `start`, status 2 exactly when
   * there is none, and a read past the terminator when `left` ends the string.
   */
  lemma CopyTextBetweenSpans(s: CString, left: CString, right: CString)
    ensures var r := CopyTextBetween(s, left, right);
      (r == Failure(LeftDelimiterMissing) <==> forall k :: !OccursAt(s, left, k)) &&
      (r != Failure(LeftDelimiterMissing) ==>
        var p := FirstOccurrence(s, left, 0);
        p.Some? &&
        var start := p.value + |left|;
        start <= |s| &&
        (r == Failure(ReadsPastTerminator) <==> start == |s|) &&
        (r == Failure(RightDelimiterMissing) <==> start < |s| && forall k :: start < k ==> !OccursAt(s, right, k)) &&
        (r.Success? ==>
           start + |r.value| <= |s| && r.value == s[start..start + |r.value|] &&
           OccursAt(s, right, start + |r.value|) &&
           forall k :: start < k < start + |r.value| ==> !OccursAt(s, right, k)))
  {
  }

  /**
   * The status code copy_text_between returns: 1 exactly when `left` does not
   * occur, 2 exactly when it does but no `right` begins after the first
   * character following it, and 0 exactly when a text is copied. A `left`
   * that ends the string makes the C code read past the terminator and has no
   * status here.
   */
  function StatusCode(s: CString, left: CString, right: CString): (code: int)
    requires FirstOccurrence(s, left, 0).None? || FirstOccurrence(s, left, 0).value + |left| < |s|
    ensures code == 0 <==> CopyTextBetween(s, left, right).Success?
    ensures code == 1 <==> forall k :: !OccursAt(s, left, k)
    ensures code == 2 <==>
      (FirstOccurrence(s, left, 0).Some? &&
       forall k :: FirstOccurrence(s, left, 0).value + |left| < k ==> !OccursAt(s, right, k))
  {
    CopyTextBetweenSpans(s, left, right);
    match CopyTextBetween(s, left, right)
    case Success(_) => 0
    case Failure(LeftDelimiterMissing) => 1
    case Failure(RightDelimiterMissing) => 2
  }

  // ---------------------------------------------------------------------------
  // copy_text_from

  function Min(a: nat, b: nat): nat
  {
    if a <= b then a else b
  }

  /**
   * copy_text_from: up to `len` characters of `source` starting at the 1-based
   * position `offset`, stopping early at the end of the string. `None` is the
   * process exit taken when `len` exceeds the length of the whole source.
   */
  method CopyTextFrom(source: CString, offset: int, len: nat) returns (r: Option<CString>)
    requires 1 <= offset <= |source| + 1
    ensures r.None? <==> |source| < len
    ensures r.Some? ==> r.value == source[offset - 1..Min(offset - 1 + len, |source|)]
  {
    if |source| < len {
      return None;
    }
    assert forall k :: 0 <= k < |source| ==> source[k] != NUL;
    var text := new char[len + 1];
    var i := 0;
    while i < len
      invariant 0 <= i <= len
      invariant offset - 1 + i <= |source|
      invariant text[..i] == source[offset - 1..offset - 1 + i]
    {
      text[i] := CharAt(source, offset - 1 + i);
      if text[i] == NUL {
        break;
      }
      i := i + 1;
    }
    text[i] := NUL;
    return Some(text[..i]);
  }
}

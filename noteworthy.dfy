/** `is_content_noteworthy`: which pieces of a country's report count as
    an issue worth sending. A value counts unless it is empty or blank,
    one of the fixed "nothing to report" phrases, or a text that reports
    no alert or an error or failure of its own fetcher. */
module Noteworthy {
  import opened Optional
  import opened PyStrings

  /** `IGNORE_PHRASES`: "no related news", "no major earthquakes", "no
      holidays scheduled". */
  const IGNORE_PHRASES: seq<string> := ["관련 뉴스 없음", "주요 지진 없음", "예정된 공휴일 없음"]

  /** "no alert": a weather fetcher's way of saying there is nothing. */
  const NO_ALERT: string := "특보 없음"
  /** "error" and "failure": a fetcher reporting its own trouble. */
  const ERROR_WORD: string := "에러"
  const FAILURE_WORD: string := "실패"

  /** `is_content_noteworthy(content)`; `None` is Python's `None`. */
  function IsNoteworthy(content: Option<string>): (b: bool)
    ensures b ==> content.Some? && !AllSpace(content.value)
  {
    if content.None? || Strip(content.value) == [] then false
    else
      var clean := Strip(content.value);
      if clean in IGNORE_PHRASES then false
      else if Contains(clean, NO_ALERT) then false
      else if Contains(clean, ERROR_WORD) || Contains(clean, FAILURE_WORD) then false
      else true
  }

  /** Whitespace around a value never changes the verdict. */
  lemma PaddingIrrelevant(a: string, s: string, b: string)
    requires AllSpace(a) && AllSpace(b)
    ensures IsNoteworthy(Some(a + s + b)) == IsNoteworthy(Some(s))
  {
    StripPadded(a, s, b);
  }

  /** The verdict depends only on the stripped value. */
  lemma OnlyStrippedMatters(s: string)
    ensures IsNoteworthy(Some(Strip(s))) == IsNoteworthy(Some(s))
  {
    StripIdempotent(s);
  }

  /** A value that mentions "no alert", "error" or "failure" anywhere is
      never noteworthy, whatever surrounds the word. */
  lemma MarkedWordSilences(a: string, w: string, b: string)
    requires w in {NO_ALERT, ERROR_WORD, FAILURE_WORD}
    ensures !IsNoteworthy(Some(a + w + b))
  {
    StripAroundWord(a, w, b);
    ContainsInfix(TrimStart(a), w, TrimEnd(b));
  }

  /** An ignore phrase is not noteworthy, with or without whitespace
      around it. */
  lemma IgnorePhraseSilences(a: string, k: nat, b: string)
    requires k < |IGNORE_PHRASES| && AllSpace(a) && AllSpace(b)
    ensures !IsNoteworthy(Some(a + IGNORE_PHRASES[k] + b))
  {
    var p := IGNORE_PHRASES[k];
    assert !IsSpace(p[0]) && !IsSpace(p[|p| - 1]);
    TrimStartUnchanged(p);
    TrimEndUnchanged(p);
    StripPadded(a, p, b);
    ListedSilences(a + p + b);
  }

  /** The ignore list is checked on the stripped value. */
  lemma ListedSilences(s: string)
    requires Strip(s) in IGNORE_PHRASES
    ensures !IsNoteworthy(Some(s))
  {
  }

  /** `None`, the empty string and blank values are not noteworthy. */
  lemma BlankSilences(s: string)
    requires AllSpace(s)
    ensures !IsNoteworthy(None) && !IsNoteworthy(Some(s))
  {
  }

  /** Any other non-blank value is noteworthy. */
  lemma UnmarkedIsNoteworthy(s: string)
    requires Strip(s) != [] && Strip(s) !in IGNORE_PHRASES
    requires !Contains(Strip(s), NO_ALERT) && !Contains(Strip(s), ERROR_WORD) && !Contains(Strip(s), FAILURE_WORD)
    ensures IsNoteworthy(Some(s))
  {
  }
}

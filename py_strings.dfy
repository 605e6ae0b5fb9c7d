/** The few Python `str` operations the Gemini caller and the report filter
    rely on: `strip()`, the substring test `sub in s`, `replace("*", "")`
    and `f"{n}"` for a non-negative integer. */
module PyStrings {

  /** The characters for which Python's `str.isspace()` holds, the ones
      `strip()` with no argument removes: tab to carriage return, the four
      separators U+001C-U+001F, space, U+0085, no-break space, the Ogham
      space mark, the spaces U+2000-U+200A, the line and paragraph
      separators, the narrow no-break and medium mathematical spaces, and
      the ideographic space. */
  predicate IsSpace(c: char) {
    || '\t' <= c <= '\r'
    || '\U{1C}' <= c <= ' '
    || c == '\U{85}' || c == '\U{A0}' || c == '\U{1680}'
    || '\U{2000}' <= c <= '\U{200A}'
    || c == '\U{2028}' || c == '\U{2029}' || c == '\U{202F}' || c == '\U{205F}'
    || c == '\U{3000}'
  }

  /** Every character of `s` is whitespace (`not s.strip()` in Python). */
  predicate AllSpace(s: string) {
    forall i :: 0 <= i < |s| ==> IsSpace(s[i])
  }

  /** `s.lstrip()`: drops the leading whitespace and nothing else. */
  function TrimStart(s: string): (r: string)
    ensures |r| <= |s| && r == s[|s| - |r|..]
    ensures r == [] || !IsSpace(r[0])
    ensures forall i :: 0 <= i < |s| - |r| ==> IsSpace(s[i])
    decreases |s|
  {
    if |s| > 0 && IsSpace(s[0]) then TrimStart(s[1..]) else s
  }

  /** `s.rstrip()`: drops the trailing whitespace and nothing else. */
  function TrimEnd(s: string): (r: string)
    ensures |r| <= |s| && r == s[..|r|]
    ensures r == [] || !IsSpace(r[|r| - 1])
    ensures forall i :: |r| <= i < |s| ==> IsSpace(s[i])
    decreases |s|
  {
    if |s| > 0 && IsSpace(s[|s| - 1]) then TrimEnd(s[..|s| - 1]) else s
  }

  /** `r` is `s` with the whitespace-only prefix `s[..k]` and a
      whitespace-only suffix cut off. */
  predicate Unpadded(s: string, r: string, k: int) {
    0 <= k <= |s| - |r| && r == s[k..k + |r|] && AllSpace(s[..k]) && AllSpace(s[k + |r|..])
  }

  /** `s.strip()`. */
  function Strip(s: string): (r: string)
    ensures r == [] <==> AllSpace(s)
    ensures r != [] ==> !IsSpace(r[0]) && !IsSpace(r[|r| - 1])
    ensures |r| <= |s|
    ensures exists k :: Unpadded(s, r, k)
  {
    var t := TrimStart(s);
    CutPadding(s, t, TrimEnd(t));
    TrimEnd(t)
  }

  /** Cutting a whitespace-only prefix off `s`, giving `t`, and then a
      whitespace-only suffix off `t`, giving `r`, leaves `r` unpadded in
      `s`. */
  lemma CutPadding(s: string, t: string, r: string)
    requires |t| <= |s| && t == s[|s| - |t|..] && forall i :: 0 <= i < |s| - |t| ==> IsSpace(s[i])
    requires |r| <= |t| && r == t[..|r|] && forall i :: |r| <= i < |t| ==> IsSpace(t[i])
    ensures Unpadded(s, r, |s| - |t|)
  {
    var k := |s| - |t|;
    var front, back := s[..k], s[k + |r|..];
    assert s[k..k + |r|] == t[..|r|];
    forall i | 0 <= i < |front| ensures IsSpace(front[i]) {
      assert front[i] == s[i];
    }
    forall i | 0 <= i < |back| ensures IsSpace(back[i]) {
      assert back[i] == t[|r| + i];
    }
  }

  /** Dropping leading whitespace from a concatenation. */
  lemma {:induction false} TrimStartAppend(x: string, y: string)
    ensures TrimStart(x + y) == if AllSpace(x) then TrimStart(y) else TrimStart(x) + y
    decreases |x|
  {
    if |x| == 0 {
      assert x + y == y;
    } else if IsSpace(x[0]) {
      assert (x + y)[1..] == x[1..] + y;
      assert AllSpace(x) <==> AllSpace(x[1..]) by {
        if AllSpace(x[1..]) {
          forall i | 0 <= i < |x| ensures IsSpace(x[i]) {
            if i > 0 { assert x[i] == x[1..][i - 1]; }
          }
        }
      }
      TrimStartAppend(x[1..], y);
    }
  }

  /** Dropping trailing whitespace from a concatenation. */
  lemma {:induction false} TrimEndPrepend(x: string, y: string)
    ensures TrimEnd(x + y) == if AllSpace(y) then TrimEnd(x) else x + TrimEnd(y)
    decreases |y|
  {
    if |y| == 0 {
      assert x + y == x;
    } else if IsSpace(y[|y| - 1]) {
      var y' := y[..|y| - 1];
      assert (x + y)[..|x + y| - 1] == x + y';
      assert AllSpace(y) <==> AllSpace(y') by {
        if AllSpace(y') {
          forall i | 0 <= i < |y| ensures IsSpace(y[i]) {
            if i < |y| - 1 { assert y[i] == y'[i]; }
          }
        }
      }
      TrimEndPrepend(x, y');
    }
  }

  /** Whitespace around a string never changes what `strip()` returns. */
  lemma StripPadded(a: string, s: string, b: string)
    requires AllSpace(a) && AllSpace(b)
    ensures Strip(a + s + b) == Strip(s)
  {
    ConcatAssoc(a, s, b);
    TrimStartAppend(a, s + b);
    TrimStartAppend(s, b);
    if !AllSpace(s) {
      TrimEndPrepend(TrimStart(s), b);
    }
  }

  /** A string that already starts with a non-whitespace character keeps it. */
  lemma TrimStartUnchanged(s: string)
    requires s == [] || !IsSpace(s[0])
    ensures TrimStart(s) == s
  {
  }

  /** A string that already ends with a non-whitespace character keeps it. */
  lemma TrimEndUnchanged(s: string)
    requires s == [] || !IsSpace(s[|s| - 1])
    ensures TrimEnd(s) == s
  {
  }

  /** Whitespace-only strings trim to nothing. */
  lemma TrimAllSpace(s: string)
    requires AllSpace(s)
    ensures TrimStart(s) == [] && TrimEnd(s) == []
  {
  }

  /** Leading whitespace stops at a word whose first character is not
      whitespace. */
  lemma TrimStartBeforeWord(a: string, rest: string)
    requires rest != [] && !IsSpace(rest[0])
    ensures TrimStart(a + rest) == TrimStart(a) + rest
  {
    TrimStartAppend(a, rest);
    assert !AllSpace(rest);
    TrimStartUnchanged(rest);
    if AllSpace(a) {
      TrimAllSpace(a);
    }
  }

  /** Trailing whitespace stops at a word whose last character is not
      whitespace. */
  lemma TrimEndAfterWord(front: string, b: string)
    requires front != [] && !IsSpace(front[|front| - 1])
    ensures TrimEnd(front + b) == front + TrimEnd(b)
  {
    TrimEndPrepend(front, b);
    assert !AllSpace(front);
    TrimEndUnchanged(front);
    if AllSpace(b) {
      TrimAllSpace(b);
    }
  }

  /** Concatenation is associative (stated once so that proofs about
      `strip()` need not rediscover it). */
  lemma ConcatAssoc(x: string, y: string, z: string)
    ensures x + (y + z) == x + y + z
  {
  }

  /** `strip()` keeps a word whose first and last characters are not
      whitespace intact, whatever surrounds it. */
  lemma StripAroundWord(a: string, w: string, b: string)
    requires w != [] && !IsSpace(w[0]) && !IsSpace(w[|w| - 1])
    ensures Strip(a + w + b) == TrimStart(a) + w + TrimEnd(b)
  {
    var a' := TrimStart(a);
    ConcatEnds(a', w, b);
    TrimStartBeforeWord(a, w + b);
    TrimEndAfterWord(a' + w, b);
    ConcatAssoc(a, w, b);
    ConcatAssoc(a', w, b);
  }

  /** A non-empty middle part gives the first and last characters of the
      concatenations around it. */
  lemma ConcatEnds(x: string, w: string, y: string)
    requires w != []
    ensures w + y != [] && (w + y)[0] == w[0]
    ensures x + w != [] && (x + w)[|x + w| - 1] == w[|w| - 1]
  {
  }

  /** `strip()` is idempotent. */
  lemma StripIdempotent(s: string)
    ensures Strip(Strip(s)) == Strip(s)
  {
    var r := Strip(s);
    TrimStartUnchanged(r);
    TrimEndUnchanged(r);
  }

  predicate StartsWith(s: string, prefix: string) {
    |prefix| <= |s| && s[..|prefix|] == prefix
  }

  /** Python's substring test `sub in s`. */
  predicate Contains(s: string, sub: string)
    decreases |s|
  {
    StartsWith(s, sub) || (s != [] && Contains(s[1..], sub))
  }

  /** A string contains every string spliced into it. */
  lemma {:induction false} ContainsInfix(a: string, w: string, b: string)
    ensures Contains(a + w + b, w)
    decreases |a|
  {
    if a == [] {
      assert a + w + b == w + b;
      assert (w + b)[..|w|] == w;
    } else {
      assert (a + w + b)[1..] == a[1..] + w + b;
      ContainsInfix(a[1..], w, b);
    }
  }

  /** `sub` occurs in `s` starting at position `i`. */
  predicate OccursAt(s: string, sub: string, i: int) {
    0 <= i <= |s| - |sub| && s[i..i + |sub|] == sub
  }

  /** `sub in s` holds exactly when `sub` occurs in `s` at some position. */
  lemma {:induction false} ContainsAtSomePosition(s: string, sub: string)
    ensures Contains(s, sub) <==> exists i :: OccursAt(s, sub, i)
    decreases |s|
  {
    if StartsWith(s, sub) {
      assert OccursAt(s, sub, 0);
    } else if s != [] {
      ContainsAtSomePosition(s[1..], sub);
      if Contains(s[1..], sub) {
        var i :| OccursAt(s[1..], sub, i);
        assert s[i + 1..i + 1 + |sub|] == s[1..][i..i + |sub|];
        assert OccursAt(s, sub, i + 1);
      }
      if exists i :: OccursAt(s, sub, i) {
        var i :| OccursAt(s, sub, i);
        if i != 0 {
          assert s[1..][i - 1..i - 1 + |sub|] == s[i..i + |sub|];
          assert OccursAt(s[1..], sub, i - 1);
        }
      }
    }
  }

  /** `s.replace("*", "")`: every asterisk removed, every other character
      kept with its multiplicity. */
  function RemoveStars(s: string): (r: string)
    ensures '*' !in r
    ensures forall c :: c != '*' ==> multiset(r)[c] == multiset(s)[c]
    decreases |s|
  {
    if s == [] then []
    else
      assert s == [s[0]] + s[1..];
      (if s[0] == '*' then [] else [s[0]]) + RemoveStars(s[1..])
  }

  /** `replace` works character by character: it distributes over `+`. */
  lemma {:induction false} RemoveStarsConcat(a: string, b: string)
    ensures RemoveStars(a + b) == RemoveStars(a) + RemoveStars(b)
    decreases |a|
  {
    if a != [] {
      var head := if a[0] == '*' then [] else [a[0]];
      assert (a + b)[0] == a[0] && (a + b)[1..] == a[1..] + b;
      assert RemoveStars(a + b) == head + RemoveStars(a[1..] + b);
      RemoveStarsConcat(a[1..], b);
      ConcatAssoc(head, RemoveStars(a[1..]), RemoveStars(b));
    } else {
      assert a + b == b;
    }
  }

  /** A string without asterisks is left unchanged. */
  lemma {:induction false} RemoveStarsNoStar(s: string)
    requires '*' !in s
    ensures RemoveStars(s) == s
    decreases |s|
  {
    if s != [] {
      assert '*' !in s[1..] by {
        forall i | 0 <= i < |s[1..]| ensures s[1..][i] != '*' {
          assert s[1..][i] == s[i + 1];
        }
      }
      RemoveStarsNoStar(s[1..]);
    }
  }

  /** The decimal digit for `d`. */
  function Digit(d: nat): (c: char)
    requires d < 10
    ensures '0' <= c <= '9' && c as int == '0' as int + d
  {
    (48 + d) as char
  }

  /** `f"{n}"` for a non-negative integer: its decimal digits. */
  function DecimalString(n: nat): (r: string)
    ensures r != []
    ensures forall i :: 0 <= i < |r| ==> '0' <= r[i] <= '9'
    ensures r[0] == '0' <==> n == 0
    decreases n
  {
    if n < 10 then [Digit(n)] else DecimalString(n / 10) + [Digit(n % 10)]
  }

  /** The number a string of decimal digits denotes. */
  function DigitsValue(r: string): int
    decreases |r|
  {
    if r == [] then 0 else 10 * DigitsValue(r[..|r| - 1]) + (r[|r| - 1] as int - '0' as int)
  }

  /** `f"{n}"` reads back as `n`. */
  lemma {:induction false} DecimalStringValue(n: nat)
    ensures DigitsValue(DecimalString(n)) == n
    decreases n
  {
    if n >= 10 {
      DecimalStringValue(n / 10);
      var r := DecimalString(n);
      assert r[..|r| - 1] == DecimalString(n / 10);
    }
  }
}

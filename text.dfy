/** String operations the core relies on: the whitespace sets of Python's
    str.split() and JavaScript's String.prototype.trim(), ASCII lower-casing,
    substring search, and splitting on a separator. */
module Text {

  /** Characters Python's str.split() with no argument treats as whitespace. */
  predicate IsPySpace(c: char)
  {
    var n := c as int;
    n == 0x20 || (0x09 <= n <= 0x0d) || (0x1c <= n <= 0x1f) || n == 0x85 || n == 0xa0
    || n == 0x1680 || (0x2000 <= n <= 0x200a) || n == 0x2028 || n == 0x2029
    || n == 0x202f || n == 0x205f || n == 0x3000
  }

  /** Characters JavaScript's trim() removes (WhiteSpace and LineTerminator). */
  predicate IsJsSpace(c: char)
  {
    var n := c as int;
    n == 0x20 || (0x09 <= n <= 0x0d) || n == 0xa0 || n == 0x1680
    || (0x2000 <= n <= 0x200a) || n == 0x2028 || n == 0x2029
    || n == 0x202f || n == 0x205f || n == 0x3000 || n == 0xfeff
  }

  function LowerChar(c: char): char
  {
    if 'A' <= c <= 'Z' then (c as int + 32) as char else c
  }

  /** Lower-cases the ASCII letters of s, position by position. */
  function Lower(s: string): (r: string)
    ensures |r| == |s|
    ensures forall i :: 0 <= i < |s| ==> r[i] == LowerChar(s[i])
  {
    seq(|s|, i requires 0 <= i < |s| => LowerChar(s[i]))
  }

  lemma LowerIdempotent(s: string)
    ensures Lower(Lower(s)) == Lower(s)
  {
  }

  /** Text without upper-case ASCII letters is its own lower-case form. */
  lemma LowerNoUpper(s: string)
    requires forall i :: 0 <= i < |s| ==> !('A' <= s[i] <= 'Z')
    ensures Lower(s) == s
  {
  }

  predicate StartsWith(s: string, prefix: string)
  {
    |prefix| <= |s| && s[..|prefix|] == prefix
  }

  /** Substring test, as Python's `in` and JavaScript's includes(). */
  predicate Contains(s: string, sub: string)
    decreases |s|
  {
    StartsWith(s, sub) || (s != [] && Contains(s[1..], sub))
  }

  /** sub occurs in s starting at position i. */
  predicate OccursAt(s: string, sub: string, i: int)
  {
    0 <= i <= |s| - |sub| && s[i..i + |sub|] == sub
  }

  /** Contains is exactly "sub occurs at some position of s". */
  lemma {:induction false} ContainsIff(s: string, sub: string)
    ensures Contains(s, sub) <==> exists i :: OccursAt(s, sub, i)
    decreases |s|
  {
    if StartsWith(s, sub) {
      assert OccursAt(s, sub, 0);
    }
    if s != [] {
      ContainsIff(s[1..], sub);
      if Contains(s[1..], sub) {
        var i :| OccursAt(s[1..], sub, i);
        assert s[i + 1..i + 1 + |sub|] == s[1..][i..i + |sub|];
        assert OccursAt(s, sub, i + 1);
      }
      if exists i :: OccursAt(s, sub, i) {
        var i :| OccursAt(s, sub, i);
        if i > 0 {
          assert s[1..][i - 1..i - 1 + |sub|] == s[i..i + |sub|];
          assert OccursAt(s[1..], sub, i - 1);
        }
      }
    } else {
      if exists i :: OccursAt(s, sub, i) {
        var i :| OccursAt(s, sub, i);
        assert sub == [];
      }
    }
  }

  /** A witness position is enough to show containment. */
  lemma ContainsAt(s: string, sub: string, i: int)
    requires OccursAt(s, sub, i)
    ensures Contains(s, sub)
  {
    ContainsIff(s, sub);
  }

  lemma ContainsEmpty(s: string)
    ensures Contains(s, "")
  {
    assert StartsWith(s, "");
  }

  // ---------------------------------------------------------------------------
  // JavaScript trim()

  predicate AllJsSpace(s: string)
  {
    forall i :: 0 <= i < |s| ==> IsJsSpace(s[i])
  }

  /** The number of whitespace characters s starts with. */
  function LeadingSpaces(s: string): (n: nat)
    ensures n <= |s|
    ensures forall i :: 0 <= i < n ==> IsJsSpace(s[i])
    ensures n < |s| ==> !IsJsSpace(s[n])
  {
    if s == [] || !IsJsSpace(s[0]) then 0
    else
      var k := LeadingSpaces(s[1..]);
      assert forall i :: 1 <= i <= k ==> s[i] == s[1..][i - 1];
      k + 1
  }

  /** The number of whitespace characters s ends with. */
  function TrailingSpaces(s: string): (n: nat)
    ensures n <= |s|
    ensures forall i :: |s| - n <= i < |s| ==> IsJsSpace(s[i])
    ensures n < |s| ==> !IsJsSpace(s[|s| - 1 - n])
  {
    if s == [] || !IsJsSpace(s[|s| - 1]) then 0
    else
      var k := TrailingSpaces(s[..|s| - 1]);
      assert forall i :: |s| - 1 - k <= i < |s| - 1 ==> s[i] == s[..|s| - 1][i];
      k + 1
  }

  function TrimStart(s: string): (r: string)
    ensures |r| <= |s| && r == s[|s| - |r|..]
    ensures r == [] <==> AllJsSpace(s)
    ensures r != [] ==> !IsJsSpace(r[0])
    ensures AllJsSpace(s[..|s| - |r|])
  {
    var n := LeadingSpaces(s);
    assert forall i :: 0 <= i < n ==> s[..n][i] == s[i];
    assert n < |s| ==> !AllJsSpace(s);
    s[n..]
  }

  function TrimEnd(s: string): (r: string)
    ensures |r| <= |s| && r == s[..|r|]
    ensures r == [] <==> AllJsSpace(s)
    ensures r != [] ==> !IsJsSpace(r[|r| - 1])
    ensures AllJsSpace(s[|r|..])
  {
    var n := TrailingSpaces(s);
    assert forall i :: |s| - n <= i < |s| ==> s[|s| - n..][i - (|s| - n)] == s[i];
    assert n < |s| ==> !AllJsSpace(s);
    s[..|s| - n]
  }

  /** r sits at position i of s with only whitespace before and after it. */
  predicate TrimmedAt(s: string, r: string, i: int)
  {
    OccursAt(s, r, i) && AllJsSpace(s[..i]) && AllJsSpace(s[i + |r|..])
  }

  /** JavaScript's s.trim(): a contiguous slice of s with no whitespace at
      either end, empty exactly when s is blank, and what is cut away on
      either side is whitespace only. */
  function Trim(s: string): (r: string)
    ensures |r| <= |s|
    ensures exists i :: OccursAt(s, r, i)
    ensures exists i :: TrimmedAt(s, r, i)
    ensures r == [] <==> AllJsSpace(s)
    ensures r != [] ==> !IsJsSpace(r[0]) && !IsJsSpace(r[|r| - 1])
  {
    var t := TrimStart(s);
    var r := TrimEnd(t);
    var i := |s| - |t|;
    assert s[i..] == t;
    assert s[i..i + |r|] == r;
    assert s[i + |r|..] == t[|r|..];
    assert TrimmedAt(s, r, i);
    r
  }

  /** Trimming twice changes nothing more. */
  lemma TrimIdempotent(s: string)
    ensures Trim(Trim(s)) == Trim(s)
  {
    var r := Trim(s);
    if r != [] {
      assert TrimStart(r) == r;
      assert TrimEnd(r) == r;
    } else {
      assert AllJsSpace(r);
    }
  }

  /** A string with no whitespace at either end is its own trim. */
  lemma TrimUnpadded(s: string)
    requires s != [] && !IsJsSpace(s[0]) && !IsJsSpace(s[|s| - 1])
    ensures Trim(s) == s
  {
    assert TrimStart(s) == s;
    assert TrimEnd(s) == s;
  }

  // ---------------------------------------------------------------------------
  // Python str.split() with no separator

  predicate NoPySpace(s: string)
  {
    forall i :: 0 <= i < |s| ==> !IsPySpace(s[i])
  }

  /** Length of the leading run of non-whitespace characters. */
  function WordLen(s: string): (n: nat)
    ensures n <= |s|
    ensures NoPySpace(s[..n])
    ensures n < |s| ==> IsPySpace(s[n])
  {
    if s == [] || IsPySpace(s[0]) then 0
    else
      var n := WordLen(s[1..]);
      assert s[..n + 1] == [s[0]] + s[1..][..n];
      n + 1
  }

  /** Python's s.split(): the maximal runs of non-whitespace characters, in
      order; runs of whitespace at the ends and in between produce nothing. */
  function SplitWords(s: string): (ws: seq<string>)
    ensures forall k :: 0 <= k < |ws| ==> ws[k] != [] && NoPySpace(ws[k])
    decreases |s|
  {
    if s == [] then []
    else if IsPySpace(s[0]) then SplitWords(s[1..])
    else
      var n := WordLen(s);
      [s[..n]] + SplitWords(s[n..])
  }

  lemma {:induction false} WordLenOfWord(w: string, rest: string)
    requires NoPySpace(w)
    requires rest == [] || IsPySpace(rest[0])
    ensures WordLen(w + rest) == |w|
    decreases |w|
  {
    if w != [] {
      assert (w + rest)[1..] == w[1..] + rest;
      WordLenOfWord(w[1..], rest);
    } else {
      assert w + rest == rest;
    }
  }

  lemma {:induction false} SplitWordsBlank(s: string)
    requires forall i :: 0 <= i < |s| ==> IsPySpace(s[i])
    ensures SplitWords(s) == []
    decreases |s|
  {
    if s != [] {
      SplitWordsBlank(s[1..]);
    }
  }

  /** Leading whitespace does not change the words. */
  lemma {:induction false} SplitWordsSkip(pad: string, s: string)
    requires forall i :: 0 <= i < |pad| ==> IsPySpace(pad[i])
    ensures SplitWords(pad + s) == SplitWords(s)
    decreases |pad|
  {
    if pad != [] {
      assert (pad + s)[1..] == pad[1..] + s;
      SplitWordsSkip(pad[1..], s);
    } else {
      assert pad + s == s;
    }
  }

  /** A word followed by a whitespace character and more text splits into
      that word and the words of the rest. */
  lemma SplitWordsCons(w: string, sp: char, rest: string)
    requires w != [] && NoPySpace(w) && IsPySpace(sp)
    ensures SplitWords(w + [sp] + rest) == [w] + SplitWords(rest)
  {
    var s := w + [sp] + rest;
    WordLenOfWord(w, [sp] + rest);
    assert s == w + ([sp] + rest);
    assert s[..|w|] == w;
    assert s[|w|..] == [sp] + rest;
    assert ([sp] + rest)[1..] == rest;
  }

  lemma SplitWordsSingle(w: string)
    requires w != [] && NoPySpace(w)
    ensures SplitWords(w) == [w]
  {
    WordLenOfWord(w, []);
    assert w + [] == w;
  }

  /** Two words with whitespace around and between them split into exactly
      those two words. */
  lemma SplitTwoWords(lead: string, w: string, sep: char, gap: string, v: string, trail: string)
    requires forall i :: 0 <= i < |lead| ==> IsPySpace(lead[i])
    requires forall i :: 0 <= i < |gap| ==> IsPySpace(gap[i])
    requires forall i :: 0 <= i < |trail| ==> IsPySpace(trail[i])
    requires IsPySpace(sep) && w != [] && NoPySpace(w) && v != [] && NoPySpace(v)
    ensures SplitWords(lead + (w + [sep] + (gap + (v + trail)))) == [w] + [v]
  {
    var tail := gap + (v + trail);
    SplitWordsSkip(lead, w + [sep] + tail);
    SplitWordsCons(w, sep, tail);
    SplitWordsSkip(gap, v + trail);
    SplitWordsWordThenBlank(v, trail);
  }

  /** A word followed by nothing but whitespace is one word. */
  lemma SplitWordsWordThenBlank(v: string, trail: string)
    requires forall i :: 0 <= i < |trail| ==> IsPySpace(trail[i])
    requires v != [] && NoPySpace(v)
    ensures SplitWords(v + trail) == [v]
  {
    if trail == [] {
      assert v + trail == v;
      SplitWordsSingle(v);
    } else {
      var sp, rest := trail[0], trail[1..];
      assert trail == [sp] + rest;
      assert forall i :: 0 <= i < |rest| ==> IsPySpace(rest[i]) by {
        assert forall i :: 0 <= i < |rest| ==> rest[i] == trail[i + 1];
      }
      SplitWordsCons(v, sp, rest);
      SplitWordsBlank(rest);
      assert v + trail == v + [sp] + rest;
    }
  }

  // ---------------------------------------------------------------------------
  // JavaScript s.split(sep) with a one-character separator, and join

  /** JavaScript's s.split(sep): the pieces between separators, empty pieces
      included, so there is always one more piece than separators. */
  function SplitOn(s: string, sep: char): (r: seq<string>)
    ensures |r| >= 1
    ensures forall k :: 0 <= k < |r| ==> sep !in r[k]
    decreases |s|
  {
    if s == [] then [""]
    else
      var t := SplitOn(s[1..], sep);
      if s[0] == sep then [""] + t
      else [[s[0]] + t[0]] + t[1..]
  }

  /** Array.prototype.join(sep) over a non-empty list of pieces. */
  function Join(pieces: seq<string>, sep: char): string
    requires |pieces| >= 1
  {
    if |pieces| == 1 then pieces[0] else pieces[0] + [sep] + Join(pieces[1..], sep)
  }

  /** Splitting on sep and joining with sep gives the string back. */
  lemma {:induction false} JoinSplitOn(s: string, sep: char)
    ensures Join(SplitOn(s, sep), sep) == s
    decreases |s|
  {
    if s != [] {
      JoinSplitOn(s[1..], sep);
      var t := SplitOn(s[1..], sep);
      if s[0] != sep {
        var r := [[s[0]] + t[0]] + t[1..];
        if |t| > 1 {
          assert r[1..] == t[1..];
          assert Join(t, sep) == t[0] + [sep] + Join(t[1..], sep);
        }
      }
    }
  }

  /** Splitting a string that contains a separator at a known place. */
  lemma {:induction false} SplitOnAppend(a: string, sep: char, b: string)
    requires sep !in a
    ensures SplitOn(a + [sep] + b, sep) == SplitOn(a, sep) + SplitOn(b, sep)
    decreases |a|
  {
    var s := a + [sep] + b;
    if a == [] {
      assert s[1..] == b;
    } else {
      assert s[1..] == a[1..] + [sep] + b;
      SplitOnAppend(a[1..], sep, b);
    }
  }

  lemma SplitOnNoSep(w: string, sep: char)
    requires sep !in w
    ensures SplitOn(w, sep) == [w]
    decreases |w|
  {
    if w != [] {
      SplitOnNoSep(w[1..], sep);
      assert [w[0]] + w[1..] == w;
    }
  }
  // ---------------------------------------------------------------------------
  // Decimal text of a count

  /** `String(n)` for a count: its decimal digits, without leading zeros. */
  function Decimal(n: nat): (s: string)
    ensures |s| >= 1
    ensures forall i :: 0 <= i < |s| ==> '0' <= s[i] <= '9'
    ensures s[0] == '0' ==> n == 0
  {
    var digit := (48 + n % 10) as char;
    if n < 10 then [digit] else Decimal(n / 10) + [digit]
  }

  /** The number a string of decimal digits denotes. */
  function DecimalValue(s: string): int
  {
    if s == [] then 0 else 10 * DecimalValue(s[..|s| - 1]) + (s[|s| - 1] as int - 48)
  }

  /** Reading the digits back gives the count. */
  lemma {:induction false} DecimalRoundTrip(n: nat)
    ensures DecimalValue(Decimal(n)) == n
  {
    var s := Decimal(n);
    if n >= 10 {
      DecimalRoundTrip(n / 10);
      assert s[..|s| - 1] == Decimal(n / 10);
    } else {
      assert s[..0] == [];
    }
  }
}

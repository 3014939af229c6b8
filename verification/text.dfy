/**
 * The JavaScript string operations the parsers rely on, over `seq<char>`:
 * `trim`, `split` on one character, `join`, `startsWith`, `endsWith`,
 * `includes`, `replace` of the first occurrence, and the default string order
 * that `Array.prototype.sort` uses.
 */
module Text {
  import opened Results

  /** White space as JavaScript's `trim` and `\s` see it (ECMAScript WhiteSpace and LineTerminator). */
  predicate IsSpace(c: char) {
    || c == ' ' || c == '\t' || c == '\n' || c == '\r' || c == '\U{B}' || c == '\U{C}'
    || c == '\U{A0}' || c == '\U{1680}' || ('\U{2000}' <= c <= '\U{200A}')
    || c == '\U{2028}' || c == '\U{2029}' || c == '\U{202F}' || c == '\U{205F}'
    || c == '\U{3000}' || c == '\U{FEFF}'
  }

  /** `s` with its leading white space removed. */
  function TrimStart(s: string): (r: string)
    ensures |r| <= |s| && r == s[|s| - |r|..]
    ensures r == [] || !IsSpace(r[0])
    ensures forall i :: 0 <= i < |s| - |r| ==> IsSpace(s[i])
    decreases |s|
  {
    if s != [] && IsSpace(s[0]) then TrimStart(s[1..]) else s
  }

  /** `s` with its trailing white space removed. */
  function TrimEnd(s: string): (r: string)
    ensures |r| <= |s| && r == s[..|r|]
    ensures r == [] || !IsSpace(r[|r| - 1])
    ensures forall i :: |r| <= i < |s| ==> IsSpace(s[i])
    decreases |s|
  {
    if s != [] && IsSpace(s[|s| - 1]) then TrimEnd(s[..|s| - 1]) else s
  }

  /** Neither end of `s` is white space. */
  predicate Trimmed(s: string) {
    s == [] || (!IsSpace(s[0]) && !IsSpace(s[|s| - 1]))
  }

  /** JavaScript's `s.trim()`. */
  function Trim(s: string): (r: string)
    ensures |r| <= |s| && Trimmed(r)
  {
    TrimEnd(TrimStart(s))
  }

  /** Trimming a trimmed, non-empty string with one white-space character after it drops that character. */
  lemma TrimTrailingSpace(s: string, c: char)
    requires s != [] && Trimmed(s) && IsSpace(c)
    ensures Trim(s + [c]) == s
  {
    var t := s + [c];
    assert t[0] == s[0];
    assert TrimStart(t) == t;
    assert t[..|t| - 1] == s;
    assert TrimEnd(t) == TrimEnd(s);
  }

  /** Trimming leaves nothing exactly when the string is all white space. */
  lemma TrimEmpty(s: string)
    ensures Trim(s) == [] <==> forall i :: 0 <= i < |s| ==> IsSpace(s[i])
  {
    var t := TrimStart(s);
    if Trim(s) != [] {
      assert Trim(s)[0] == t[0] == s[|s| - |t|];
    }
  }

  /** A string that starts and ends with a non-space character is its own trim. */
  lemma TrimFixed(s: string)
    requires Trimmed(s)
    ensures Trim(s) == s
  {
  }

  /** Trimming twice is trimming once. */
  lemma TrimIdempotent(s: string)
    ensures Trim(Trim(s)) == Trim(s)
  {
    TrimFixed(Trim(s));
  }

  /** JavaScript's `s.split(sep)` for a one-character separator: the pieces between separators. */
  function Split(s: string, sep: char): (r: seq<string>)
    ensures |r| >= 1
    ensures forall i :: 0 <= i < |r| ==> sep !in r[i]
    decreases |s|
  {
    if s == [] then [""]
    else
      var rest := Split(s[1..], sep);
      if s[0] == sep then [""] + rest else [[s[0]] + rest[0]] + rest[1..]
  }

  /** Every character of a piece of a split comes from the string split. */
  lemma {:induction false} SplitInside(s: string, sep: char)
    ensures forall i, c :: 0 <= i < |Split(s, sep)| && c in Split(s, sep)[i] ==> c in s
    decreases |s|
  {
    if s != [] {
      var rest := Split(s[1..], sep);
      SplitInside(s[1..], sep);
      forall i, c | 0 <= i < |Split(s, sep)| && c in Split(s, sep)[i] ensures c in s {
        assert forall d :: d in s[1..] ==> d in s;
        if s[0] != sep && i == 0 {
          assert Split(s, sep)[0] == [s[0]] + rest[0];
          assert c == s[0] || c in rest[0];
        } else if s[0] != sep {
          assert Split(s, sep)[i] == rest[i];
        } else if i > 0 {
          assert Split(s, sep)[i] == rest[i - 1];
        }
      }
    }
  }

  /** JavaScript's `xs.join(sep)`. */
  function Join(xs: seq<string>, sep: string): string
  {
    if |xs| == 0 then ""
    else if |xs| == 1 then xs[0]
    else xs[0] + sep + Join(xs[1..], sep)
  }

  /** A character of a join comes from one of the pieces or from the separator. */
  lemma {:induction false} JoinChars(xs: seq<string>, sep: string, c: char)
    requires c in Join(xs, sep)
    ensures c in sep || exists i :: 0 <= i < |xs| && c in xs[i]
    decreases |xs|
  {
    if |xs| > 1 && c !in xs[0] && c !in sep {
      JoinChars(xs[1..], sep, c);
      var i :| 0 <= i < |xs| - 1 && c in xs[1..][i];
      assert xs[1..][i] == xs[i + 1];
    }
  }

  /** Joining the pieces of a split with the separator gives back the string. */
  lemma {:induction false} JoinSplit(s: string, sep: char)
    ensures Join(Split(s, sep), [sep]) == s
    decreases |s|
  {
    if s != [] {
      var rest := Split(s[1..], sep);
      JoinSplit(s[1..], sep);
      if s[0] != sep {
        if |rest| == 1 {
          assert Split(s, sep) == [[s[0]] + rest[0]];
        } else {
          assert Split(s, sep)[1..] == rest[1..];
          assert Join(rest, [sep]) == rest[0] + [sep] + Join(rest[1..], [sep]);
        }
      }
    }
  }

  /** Splitting a piece free of the separator, followed by more text, glues the piece to the first part. */
  lemma {:induction false} SplitAfterPiece(x: string, t: string, sep: char)
    requires sep !in x
    ensures Split(x + t, sep) == [x + Split(t, sep)[0]] + Split(t, sep)[1..]
    decreases |x|
  {
    if x != [] {
      assert (x + t)[1..] == x[1..] + t;
      SplitAfterPiece(x[1..], t, sep);
      assert [x[0]] + (x[1..] + Split(t, sep)[0]) == x + Split(t, sep)[0];
    } else {
      var st := Split(t, sep);
      assert x + t == t;
      assert x + st[0] == st[0];
      assert st == [st[0]] + st[1..];
    }
  }

  /** Splitting a join gives back the pieces, when no piece holds the separator. */
  lemma {:induction false} SplitJoin(xs: seq<string>, sep: char)
    requires |xs| >= 1
    requires forall i :: 0 <= i < |xs| ==> sep !in xs[i]
    ensures Split(Join(xs, [sep]), sep) == xs
  {
    if |xs| == 1 {
      SplitAfterPiece(xs[0], "", sep);
      assert xs[0] + "" == xs[0];
    } else {
      var tail := Join(xs[1..], [sep]);
      SplitJoin(xs[1..], sep);
      assert Join(xs, [sep]) == xs[0] + ([sep] + tail);
      SplitAfterPiece(xs[0], [sep] + tail, sep);
      assert ([sep] + tail)[1..] == tail;
      assert Split([sep] + tail, sep) == [""] + xs[1..];
      assert xs[0] + "" == xs[0];
    }
  }

  /** JavaScript's `xs.map(s => s.trim())`. */
  function TrimAll(xs: seq<string>): (r: seq<string>)
    ensures |r| == |xs|
  {
    seq(|xs|, i requires 0 <= i < |xs| => Trim(xs[i]))
  }

  /** JavaScript's `xs.filter(s => s.length)`: the non-empty strings, in order. */
  function NonEmpty(xs: seq<string>): (r: seq<string>)
    ensures |r| <= |xs|
    ensures forall i :: 0 <= i < |r| ==> r[i] != "" && r[i] in xs
    ensures forall x :: x in xs && x != "" ==> x in r
  {
    if xs == [] then []
    else if xs[0] == "" then NonEmpty(xs[1..])
    else [xs[0]] + NonEmpty(xs[1..])
  }

  /**
   * `s.split(sep).map(t => t.trim()).filter(t => t.length)`: the trimmed,
   * non-empty pieces of `s`.
   */
  function TrimmedPieces(s: string, sep: char): (r: seq<string>)
    ensures forall i :: 0 <= i < |r| ==> r[i] != "" && Trimmed(r[i]) && sep !in r[i]
    ensures forall x :: x in r <==> x != "" && x in TrimAll(Split(s, sep))
  {
    var pieces := Split(s, sep);
    var r := NonEmpty(TrimAll(pieces));
    forall i | 0 <= i < |r| ensures Trimmed(r[i]) && sep !in r[i] {
      var k :| 0 <= k < |pieces| && r[i] == Trim(pieces[k]);
      TrimInside(pieces[k]);
    }
    r
  }

  /** A trimmed string is a piece of the original, so it holds no character the original lacks. */
  lemma TrimInside(s: string)
    ensures forall c :: c in Trim(s) ==> c in s
  {
    var t := TrimStart(s);
    assert forall c :: c in TrimEnd(t) ==> c in t;
    assert forall c :: c in t ==> c in s;
  }

  /** `pat` occurs in `s` at index `i`. */
  predicate OccursAt(s: string, pat: string, i: nat) {
    i + |pat| <= |s| && s[i..i + |pat|] == pat
  }

  /** JavaScript's `s.startsWith(pat)`. */
  predicate StartsWith(s: string, pat: string) {
    OccursAt(s, pat, 0)
  }

  /** JavaScript's `s.endsWith(pat)`. */
  predicate EndsWith(s: string, pat: string) {
    |pat| <= |s| && OccursAt(s, pat, |s| - |pat|)
  }

  /** The first index at or after `i` where `pat` occurs in `s` (JavaScript's `indexOf`). */
  function IndexOfFrom(s: string, pat: string, i: nat): (r: Option<nat>)
    requires i <= |s|
    ensures r.Some? ==> i <= r.value <= |s| && OccursAt(s, pat, r.value)
    ensures forall k :: i <= k <= |s| && (r.None? || k < r.value) ==> !OccursAt(s, pat, k)
    decreases |s| - i
  {
    if OccursAt(s, pat, i) then Some(i)
    else if i == |s| then None
    else IndexOfFrom(s, pat, i + 1)
  }

  /** JavaScript's `s.includes(pat)`. */
  predicate Contains(s: string, pat: string) {
    IndexOfFrom(s, pat, 0).Some?
  }

  /** JavaScript's `s.replace(pat, rep)` with a string pattern: only the first occurrence is replaced. */
  function ReplaceFirst(s: string, pat: string, rep: string): string
  {
    match IndexOfFrom(s, pat, 0)
    case None => s
    case Some(i) => s[..i] + rep + s[i + |pat|..]
  }

  /** Removing the first occurrence of a pattern that does not occur changes nothing. */
  lemma ReplaceAbsent(s: string, pat: string, rep: string)
    requires forall k :: 0 <= k <= |s| ==> !OccursAt(s, pat, k)
    ensures ReplaceFirst(s, pat, rep) == s
  {
  }

  /**
   * When the first character of `pat` is absent from `base`, the first
   * occurrence of `pat` in `base + pat + rest` is the one right after `base`.
   */
  lemma FirstOccurrenceAfter(base: string, pat: string, rest: string)
    requires pat != [] && pat[0] !in base
    ensures IndexOfFrom(base + pat + rest, pat, 0) == Some(|base|)
    ensures ReplaceFirst(base + pat + rest, pat, "") == base + rest
  {
    var s := base + pat + rest;
    assert OccursAt(s, pat, |base|) by {
      assert s[|base|..|base| + |pat|] == pat;
    }
    forall k | 0 <= k < |base| ensures !OccursAt(s, pat, k) {
      assert s[k] == base[k];
    }
    var r := IndexOfFrom(s, pat, 0);
    assert r.Some? && r.value == |base|;
    assert s[..|base|] == base;
    assert s[|base| + |pat|..] == rest;
  }

  /**
   * JavaScript's `a < b` on strings: lexicographic comparison, a proper
   * prefix coming first.
   */
  predicate Less(a: string, b: string)
    decreases |a|
  {
    |b| > 0 && (|a| == 0 || a[0] < b[0] || (a[0] == b[0] && Less(a[1..], b[1..])))
  }

  /** Of two different strings one is less than the other. */
  lemma {:induction false} LessTotal(a: string, b: string)
    ensures a == b || Less(a, b) || Less(b, a)
    decreases |a|
  {
    if a != [] && b != [] && a[0] == b[0] {
      LessTotal(a[1..], b[1..]);
      if a[1..] == b[1..] {
        assert a == [a[0]] + a[1..] && b == [b[0]] + b[1..];
      }
    }
  }

  /** No string is both less and greater than another. */
  lemma {:induction false} LessAsymmetric(a: string, b: string)
    ensures !(Less(a, b) && Less(b, a))
    decreases |a|
  {
    if a != [] && b != [] && a[0] == b[0] {
      LessAsymmetric(a[1..], b[1..]);
    }
  }

  /** `p` holds `a` and `b` in ascending order. */
  predicate SortedPair(p: (string, string), a: string, b: string) {
    (p == (a, b) || p == (b, a)) && !Less(p.1, p.0)
  }

  /**
   * `[a, b].sort()` with JavaScript's default comparison: the pair in
   * ascending order.
   */
  function Sort2(a: string, b: string): (r: (string, string))
    ensures SortedPair(r, a, b)
  {
    LessAsymmetric(a, b);
    if Less(b, a) then (b, a) else (a, b)
  }

  /** Two strings have only one ascending arrangement. */
  lemma SortedPairUnique(p: (string, string), q: (string, string), a: string, b: string)
    requires SortedPair(p, a, b) && SortedPair(q, a, b)
    ensures p == q
  {
    LessTotal(a, b);
    LessAsymmetric(a, b);
  }

  /** Sorting a pair does not depend on the order the two strings come in. */
  lemma Sort2Symmetric(a: string, b: string)
    ensures Sort2(a, b) == Sort2(b, a)
  {
    LessTotal(a, b);
    LessAsymmetric(a, b);
  }
}

/**
 * The regular expressions the two parsers use, each written as one shape of
 * a small pattern language, with JavaScript's leftmost-match search. Only
 * these shapes exist; there is no general regular-expression engine here.
 */
module Patterns {
  import opened Results
  import opened Text

  /** The regex shapes used by the parsers; KEY and SUFFIX are literal text. */
  datatype Pattern =
      /** `KEY\s*\[([^\]]+)\]SUFFIX`, or `KEY\[([^\]]+)\]SUFFIX` when `spaces` is false */
    | Bracketed(key: string, spaces: bool, suffix: string)
      /** `@relation\([^)]*KEY\s*\[([^\]]+)\][^)]*\)` */
    | RelationArg(key: string)
      /** `KEY\s*:\s*(\w+)` */
    | Word(key: string)
      /** `KEY\s*:\s*"([^"]+)"` */
    | Named(key: string)
      /** `"([^"]*)"` when `allowEmpty`, `"([^"]+)"` otherwise */
    | Quoted(allowEmpty: bool)
      /** `SUFFIX$`, a pattern without a group */
    | Ending(suffix: string)

  /** `null` (no match), or a match with its first group (`None`: the pattern has no group, JavaScript's `undefined`). */
  datatype Match = NoMatch | Matched(group: Option<string>)

  /** The text that `@relation\(` matches. */
  const RelationOpen: string := "@relation("

  /** `\w` */
  predicate IsWordChar(c: char) {
    ('a' <= c <= 'z') || ('A' <= c <= 'Z') || ('0' <= c <= '9') || c == '_'
  }

  /** The first index at or after `i` holding `c`, or `|s|`. */
  function Find(s: string, i: nat, c: char): (r: nat)
    requires i <= |s|
    ensures i <= r <= |s|
    ensures r < |s| ==> s[r] == c
    ensures forall k :: i <= k < r ==> s[k] != c
    decreases |s| - i
  {
    if i == |s| || s[i] == c then i else Find(s, i + 1, c)
  }

  /** The index after the run of white space (`\s*`) starting at `i`. */
  function SkipSpaces(s: string, i: nat): (r: nat)
    requires i <= |s|
    ensures i <= r <= |s|
    ensures r < |s| ==> !IsSpace(s[r])
    ensures forall k :: i <= k < r ==> IsSpace(s[k])
    decreases |s| - i
  {
    if i == |s| || !IsSpace(s[i]) then i else SkipSpaces(s, i + 1)
  }

  /** The index after the run of word characters (`\w*`) starting at `i`. */
  function SkipWord(s: string, i: nat): (r: nat)
    requires i <= |s|
    ensures i <= r <= |s|
    ensures r < |s| ==> !IsWordChar(s[r])
    ensures forall k :: i <= k < r ==> IsWordChar(s[k])
    decreases |s| - i
  {
    if i == |s| || !IsWordChar(s[i]) then i else SkipWord(s, i + 1)
  }

  /**
   * `KEY\s*\[([^\]]+)\]` tried at `p`: the group, a non-empty list without
   * `]` written between brackets right after the key, and the index after
   * its closing `]`.
   */
  function BracketAt(s: string, p: nat, key: string, spaces: bool): (r: Option<(string, nat)>)
    requires p <= |s|
    ensures r.Some? ==> OccursAt(s, key, p)
    ensures r.Some? ==> r.value.0 != "" && ']' !in r.value.0
    ensures r.Some? ==> p + |key| + |r.value.0| + 2 <= r.value.1 <= |s|
    ensures r.Some? ==> s[r.value.1 - |r.value.0| - 2] == '[' && s[r.value.1 - 1] == ']'
    ensures r.Some? ==> s[r.value.1 - |r.value.0| - 1..r.value.1 - 1] == r.value.0
  {
    if !OccursAt(s, key, p) then None
    else
      var b := if spaces then SkipSpaces(s, p + |key|) else p + |key|;
      if b == |s| || s[b] != '[' then None
      else
        var j := Find(s, b + 1, ']');
        if j == |s| || j == b + 1 then None
        else
          Some((s[b + 1..j], j + 1))
  }

  /** `KEY\s*\[([^\]]+)\][^)]*\)` tried at `q`: a bracketed list with a `)` somewhere after it. */
  function ArgTailAt(s: string, key: string, q: nat): (r: Option<string>)
    requires q <= |s|
    ensures r.Some? ==> OccursAt(s, key, q) && r.value != "" && ']' !in r.value
  {
    match BracketAt(s, q, key, true)
    case None => None
    case Some((g, e)) => if Find(s, e, ')') < |s| then Some(g) else None
  }

  /**
   * The greedy `[^)]*` before KEY: the last start in `a..q` at which the
   * rest of the pattern matches.
   */
  function LastArgTail(s: string, key: string, a: nat, q: nat): (r: Option<string>)
    requires a <= q <= |s|
    ensures r.Some? ==> r.value != "" && ']' !in r.value
    ensures r.None? ==> forall k :: a <= k <= q ==> ArgTailAt(s, key, k).None?
    decreases q
  {
    match ArgTailAt(s, key, q)
    case Some(g) => Some(g)
    case None => if q == a then None else LastArgTail(s, key, a, q - 1)
  }

  /** What the first group of a match of `pat` looks like. */
  predicate GroupShape(pat: Pattern, g: Option<string>) {
    match pat
    case Bracketed(_, _, _) => g.Some? && g.value != "" && ']' !in g.value
    case RelationArg(_) => g.Some? && g.value != "" && ']' !in g.value
    case Word(_) => g.Some? && g.value != "" && forall c :: c in g.value ==> IsWordChar(c)
    case Named(_) => g.Some? && g.value != "" && '"' !in g.value
    case Quoted(allowEmpty) => g.Some? && (allowEmpty || g.value != "") && '"' !in g.value
    case Ending(_) => g.None?
  }

  /** The text a match of `pat` has to start with. */
  function Lead(pat: Pattern): string {
    match pat
    case Bracketed(key, _, _) => key
    case RelationArg(_) => RelationOpen
    case Word(key) => key
    case Named(key) => key
    case Quoted(_) => "\""
    case Ending(suffix) => suffix
  }

  /** `KEY\s*\[([^\]]+)\]SUFFIX` (no `\s*` unless `spaces`) tried at `p`. */
  function BracketedAt(s: string, p: nat, key: string, spaces: bool, suffix: string): (m: Match)
    requires p <= |s|
    ensures m.Matched? ==> OccursAt(s, key, p)
    ensures m.Matched? ==> m.group.Some? && m.group.value != "" && ']' !in m.group.value
  {
    match BracketAt(s, p, key, spaces)
    case None => NoMatch
    case Some((g, e)) => if OccursAt(s, suffix, e) then Matched(Some(g)) else NoMatch
  }

  /** `@relation\([^)]*KEY\s*\[([^\]]+)\][^)]*\)` tried at `p`. */
  function RelationArgAt(s: string, p: nat, key: string): (m: Match)
    requires p <= |s|
    ensures m.Matched? ==> OccursAt(s, RelationOpen, p)
    ensures m.Matched? ==> m.group.Some? && m.group.value != "" && ']' !in m.group.value
  {
    if !OccursAt(s, RelationOpen, p) then NoMatch
    else
      var a := p + |RelationOpen|;
      match LastArgTail(s, key, a, Find(s, a, ')'))
      case None => NoMatch
      case Some(g) => Matched(Some(g))
  }

  /** `KEY\s*:\s*(\w+)` tried at `p`. */
  function WordAt(s: string, p: nat, key: string): (m: Match)
    requires p <= |s|
    ensures m.Matched? ==> OccursAt(s, key, p)
    ensures m.Matched? ==> m.group.Some? && m.group.value != "" && forall c :: c in m.group.value ==> IsWordChar(c)
  {
    if !OccursAt(s, key, p) then NoMatch
    else
      var c := SkipSpaces(s, p + |key|);
      if c == |s| || s[c] != ':' then NoMatch
      else
        var w := SkipSpaces(s, c + 1);
        var e := SkipWord(s, w);
        if e == w then NoMatch else Matched(Some(s[w..e]))
  }

  /** `KEY\s*:\s*"([^"]+)"` tried at `p`. */
  function NamedAt(s: string, p: nat, key: string): (m: Match)
    requires p <= |s|
    ensures m.Matched? ==> OccursAt(s, key, p)
    ensures m.Matched? ==> m.group.Some? && m.group.value != "" && '"' !in m.group.value
  {
    if !OccursAt(s, key, p) then NoMatch
    else
      var c := SkipSpaces(s, p + |key|);
      if c == |s| || s[c] != ':' then NoMatch
      else
        var w := SkipSpaces(s, c + 1);
        if w == |s| || s[w] != '"' then NoMatch
        else
          var e := Find(s, w + 1, '"');
          if e == |s| || e == w + 1 then NoMatch else Matched(Some(s[w + 1..e]))
  }

  /** `"([^"]*)"` (or `"([^"]+)"` unless `allowEmpty`) tried at `p`. */
  function QuotedAt(s: string, p: nat, allowEmpty: bool): (m: Match)
    requires p <= |s|
    ensures m.Matched? ==> OccursAt(s, "\"", p)
    ensures m.Matched? ==> m.group.Some? && (allowEmpty || m.group.value != "") && '"' !in m.group.value
  {
    if p == |s| || s[p] != '"' then NoMatch
    else
      var e := Find(s, p + 1, '"');
      if e == |s| || (!allowEmpty && e == p + 1) then NoMatch else Matched(Some(s[p + 1..e]))
  }

  /** `pat` tried at index `p` of `s`, as a regex engine tries one start position. */
  function MatchAt(pat: Pattern, s: string, p: nat): (m: Match)
    requires p <= |s|
    ensures m.Matched? ==> GroupShape(pat, m.group) && OccursAt(s, Lead(pat), p)
    ensures pat.Ending? ==> (m.Matched? <==> p + |pat.suffix| == |s| && OccursAt(s, pat.suffix, p))
  {
    match pat
    case Bracketed(key, spaces, suffix) => BracketedAt(s, p, key, spaces, suffix)
    case RelationArg(key) => RelationArgAt(s, p, key)
    case Word(key) => WordAt(s, p, key)
    case Named(key) => NamedAt(s, p, key)
    case Quoted(allowEmpty) => QuotedAt(s, p, allowEmpty)
    case Ending(suffix) => if p + |suffix| == |s| && OccursAt(s, suffix, p) then Matched(None) else NoMatch
  }

  /** The leftmost start at or after `p` where `pat` matches, or `|s| + 1`. */
  function FirstMatch(pat: Pattern, s: string, p: nat): (r: nat)
    requires p <= |s|
    ensures p <= r <= |s| + 1
    ensures r <= |s| ==> MatchAt(pat, s, r).Matched?
    ensures forall q :: p <= q < r && q <= |s| ==> MatchAt(pat, s, q).NoMatch?
    decreases |s| - p
  {
    if MatchAt(pat, s, p).Matched? then p
    else if p == |s| then |s| + 1
    else FirstMatch(pat, s, p + 1)
  }

  /** `s.match(pat)` without the global flag, and the first element of `s.matchAll(pat)`: the leftmost match. */
  function Search(pat: Pattern, s: string): (m: Match)
    ensures m.Matched? ==> GroupShape(pat, m.group)
  {
    var p := FirstMatch(pat, s, 0);
    if p <= |s| then MatchAt(pat, s, p) else NoMatch
  }

  /**
   * The search finds nothing exactly when no start position matches, and
   * otherwise reports the match at the leftmost start position that matches.
   */
  lemma SearchLeftmost(pat: Pattern, s: string)
    ensures Search(pat, s).NoMatch? <==> forall q :: 0 <= q <= |s| ==> MatchAt(pat, s, q).NoMatch?
    ensures Search(pat, s).Matched? ==>
      exists q :: 0 <= q <= |s| && MatchAt(pat, s, q) == Search(pat, s) &&
                  forall q' :: 0 <= q' < q ==> MatchAt(pat, s, q').NoMatch?
  {
    var p := FirstMatch(pat, s, 0);
    if p <= |s| {
      assert MatchAt(pat, s, p) == Search(pat, s);
    }
  }

  /** A pattern whose leading text does not occur in `s` finds nothing. */
  lemma AbsentLead(pat: Pattern, s: string)
    requires !Contains(s, Lead(pat))
    ensures Search(pat, s) == NoMatch
  {
    forall q | 0 <= q <= |s| ensures MatchAt(pat, s, q).NoMatch? {
      assert !OccursAt(s, Lead(pat), q);
    }
  }

  /** `SUFFIX$` matches exactly the strings that end with SUFFIX. */
  lemma EndingMatchesEndsWith(s: string, suffix: string)
    ensures Search(Ending(suffix), s).Matched? <==> EndsWith(s, suffix)
  {
    if EndsWith(s, suffix) {
      assert MatchAt(Ending(suffix), s, |s| - |suffix|).Matched?;
    }
  }

  /** The first of the results `ms` that is a match, or no match. */
  function FirstMatched(ms: seq<Match>): Match
    decreases |ms|
  {
    if ms == [] then NoMatch
    else if ms[0].Matched? then ms[0]
    else FirstMatched(ms[1..])
  }

  /**
   * The first match is no match exactly when every result is none, and
   * otherwise the result at some position with no match before it.
   */
  lemma {:induction false} FirstMatchedFirst(ms: seq<Match>)
    ensures FirstMatched(ms).NoMatch? <==> forall i :: 0 <= i < |ms| ==> ms[i].NoMatch?
    ensures FirstMatched(ms).Matched? ==>
      exists i :: 0 <= i < |ms| && ms[i] == FirstMatched(ms) && forall j :: 0 <= j < i ==> ms[j].NoMatch?
    decreases |ms|
  {
    if ms != [] && ms[0].NoMatch? {
      var rest := ms[1..];
      FirstMatchedFirst(rest);
      assert forall i :: 0 <= i < |rest| ==> rest[i] == ms[i + 1];
      if FirstMatched(rest).Matched? {
        var i :| 0 <= i < |rest| && rest[i] == FirstMatched(rest) && forall j :: 0 <= j < i ==> rest[j].NoMatch?;
        assert ms[i + 1] == FirstMatched(ms);
      }
    }
  }

  /** `blob.match(reg)` for each of `pats`, in order. */
  function Searches(pats: seq<Pattern>, blob: string): (ms: seq<Match>)
    ensures |ms| == |pats|
  {
    seq(|pats|, i requires 0 <= i < |pats| => Search(pats[i], blob))
  }
}

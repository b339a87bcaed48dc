/**
  Fixed-shape scanners for the regular expressions the GATT work-item
  handlers apply to the test tool's prompts. A pattern is a sequence of
  tokens: a literal, `\s`, the group `([0-9a-fA-F]+)` and the group
  `(a|b)`. `MatchAt` is the greedy matcher and `FindAll` is Python's
  re.findall over it; `Spells` is an independent reference meaning
  (the text spells the pattern with these groups), and the two agree on
  well-formed patterns.
*/
module Scan {
  import opened Wrappers
  import opened HexText

  datatype Token =
    | Lit(text: string)                      // the literal text itself
    | Space                                  // \s: one whitespace character
    | Hex                                    // ([0-9a-fA-F]+), captured
    | Either(first: string, second: string)  // (first|second), captured

  type Pattern = seq<Token>

  /** The groups captured by a match, and where the match ends. */
  datatype Match = Match(groups: seq<string>, end: nat)

  /** What one token takes: the group it captures, if any, and where it stops. */
  datatype Step = Step(group: Option<string>, next: nat)

  /** The characters `\s` matches in a Python 2 byte-string pattern. */
  predicate IsSpace(c: char) {
    c == ' ' || c == '\t' || c == '\n' || c == '\r' || c as int == 11 || c as int == 12
  }

  predicate IsCapture(t: Token) {
    t.Hex? || t.Either?
  }

  /**
    The shapes for which greedy matching loses nothing: every token consumes
    text, the alternatives of `Either` differ in their first character, and
    every hex group is closed by a literal that does not start with a hex digit.
  */
  predicate TokenOk(p: Pattern, k: nat)
    requires k < |p|
  {
    match p[k]
    case Lit(t) => |t| > 0
    case Space => true
    case Hex => k + 1 < |p| && p[k + 1].Lit? && |p[k + 1].text| > 0 && !IsHexDigit(p[k + 1].text[0])
    case Either(a, b) => |a| > 0 && |b| > 0 && a[0] != b[0]
  }

  predicate WellFormed(p: Pattern) {
    forall k :: 0 <= k < |p| ==> TokenOk(p, k)
  }

  lemma WellFormedTail(p: Pattern)
    requires WellFormed(p) && p != []
    ensures TokenOk(p, 0) && WellFormed(p[1..])
  {
    forall k | 0 <= k < |p| - 1
      ensures TokenOk(p[1..], k)
    {
      assert TokenOk(p, k + 1);
    }
  }

  predicate StartsWith(s: string, i: nat, x: string) {
    i + |x| <= |s| && s[i..i + |x|] == x
  }

  // ---------------------------------------------------------------------
  // Reference meaning

  /** How one token spells the front of `t` when its group (if any) is `g[0]`. */
  function TokenSpells(tok: Token, g: seq<string>, t: string): Option<Step> {
    match tok
    case Lit(x) =>
      if StartsWith(t, 0, x) then Some(Step(None, |x|)) else None
    case Space =>
      if |t| > 0 && IsSpace(t[0]) then Some(Step(None, 1)) else None
    case Hex =>
      if |g| > 0 && g[0] != [] && IsHex(g[0]) && StartsWith(t, 0, g[0]) then Some(Step(Some(g[0]), |g[0]|)) else None
    case Either(a, b) =>
      if |g| > 0 && (g[0] == a || g[0] == b) && StartsWith(t, 0, g[0]) then Some(Step(Some(g[0]), |g[0]|)) else None
  }

  /** Reference meaning: `t` is exactly a text of shape `p` whose groups are `g`. */
  predicate Spells(p: Pattern, g: seq<string>, t: string)
    decreases |p|
  {
    if p == [] then g == [] && t == []
    else
      var st := TokenSpells(p[0], g, t);
      && st.Some?
      && st.value.next <= |t|
      && (st.value.group.Some? ==> |g| > 0)
      && Spells(p[1..], if st.value.group.Some? then g[1..] else g, t[st.value.next..])
  }

  // ---------------------------------------------------------------------
  // Greedy matcher

  /** The end of the longest run of hex digits that starts at `i`. */
  function HexRunEnd(s: string, i: nat): (j: nat)
    requires i <= |s|
    ensures i <= j <= |s| && IsHex(s[i..j]) && (j == |s| || !IsHexDigit(s[j]))
    decreases |s| - i
  {
    if i < |s| && IsHexDigit(s[i]) then
      var j := HexRunEnd(s, i + 1);
      assert s[i..j] == [s[i]] + s[i + 1..j];
      j
    else i
  }

  lemma {:induction false} HexRunEndAt(s: string, i: nat, k: nat)
    requires i <= k <= |s| && IsHex(s[i..k]) && (k == |s| || !IsHexDigit(s[k]))
    ensures HexRunEnd(s, i) == k
    decreases k - i
  {
    if i < k {
      assert s[i] == s[i..k][0];
      assert s[i + 1..k] == s[i..k][1..];
      HexRunEndAt(s, i + 1, k);
    }
  }

  /**
    One token at position `i`: a literal must appear, `\s` takes one whitespace
    character, a hex group takes the longest run of hex digits, and `(a|b)`
    takes `a` when the text continues with `a`, otherwise `b`.
  */
  function MatchToken(tok: Token, s: string, i: nat): (st: Option<Step>)
    requires i <= |s|
    ensures st.Some? ==> i <= st.value.next <= |s| && (st.value.group.Some? <==> IsCapture(tok))
  {
    match tok
    case Lit(x) =>
      if StartsWith(s, i, x) then Some(Step(None, i + |x|)) else None
    case Space =>
      if i < |s| && IsSpace(s[i]) then Some(Step(None, i + 1)) else None
    case Hex =>
      var j := HexRunEnd(s, i);
      if j == i then None else Some(Step(Some(s[i..j]), j))
    case Either(a, b) =>
      if StartsWith(s, i, a) then Some(Step(Some(a), i + |a|))
      else if StartsWith(s, i, b) then Some(Step(Some(b), i + |b|))
      else None
  }

  function Prepend(group: Option<string>, m: Option<Match>): Option<Match> {
    if m.None? then None
    else if group.Some? then Some(Match([group.value] + m.value.groups, m.value.end))
    else m
  }

  /** re.match of the whole pattern at position `i`. */
  function MatchAt(p: Pattern, s: string, i: nat): (m: Option<Match>)
    requires i <= |s|
    ensures m.Some? ==> i <= m.value.end <= |s|
    ensures m.Some? && WellFormed(p) ==> m.value.end >= i + |p|
    decreases |p|
  {
    if p == [] then Some(Match([], i))
    else
      var st := MatchToken(p[0], s, i);
      if st.None? then None
      else
        assert WellFormed(p) ==> WellFormed(p[1..]) && st.value.next > i by {
          if WellFormed(p) { WellFormedTail(p); }
        }
        Prepend(st.value.group, MatchAt(p[1..], s, st.value.next))
  }

  // ---------------------------------------------------------------------
  // The greedy matcher against the reference meaning

  lemma TokenSound(tok: Token, s: string, i: nat, st: Step, g: seq<string>, j: nat)
    requires i <= |s| && MatchToken(tok, s, i) == Some(st) && st.next <= j <= |s|
    requires st.group.Some? ==> |g| > 0 && g[0] == st.group.value
    ensures TokenSpells(tok, g, s[i..j]) == Some(Step(st.group, st.next - i))
  {
    assert s[i..j][..st.next - i] == s[i..st.next];
  }

  /** A token's spelling followed by a spelling of the rest spells the pattern. */
  lemma SpellsCons(p: Pattern, g: seq<string>, t: string, st: Step, g': seq<string>)
    requires p != [] && TokenSpells(p[0], g, t) == Some(st) && st.next <= |t|
    requires st.group.Some? ==> |g| > 0 && g' == g[1..]
    requires st.group.None? ==> g' == g
    requires Spells(p[1..], g', t[st.next..])
    ensures Spells(p, g, t)
  {
  }

  lemma MatchAtUnfold(p: Pattern, s: string, i: nat)
    requires i <= |s| && p != [] && MatchAt(p, s, i).Some?
    ensures MatchToken(p[0], s, i).Some?
    ensures var st := MatchToken(p[0], s, i).value;
      MatchAt(p[1..], s, st.next).Some? && MatchAt(p, s, i) == Prepend(st.group, MatchAt(p[1..], s, st.next))
  {
  }

  /** Whatever the greedy matcher accepts spells the pattern. */
  lemma {:induction false} MatchAtSound(p: Pattern, s: string, i: nat)
    requires i <= |s| && MatchAt(p, s, i).Some?
    ensures Spells(p, MatchAt(p, s, i).value.groups, s[i..MatchAt(p, s, i).value.end])
    decreases |p|
  {
    if p != [] {
      MatchAtUnfold(p, s, i);
      var st := MatchToken(p[0], s, i).value;
      var inner := MatchAt(p[1..], s, st.next).value;
      var g := if st.group.Some? then [st.group.value] + inner.groups else inner.groups;
      assert MatchAt(p, s, i) == Some(Match(g, inner.end));
      MatchAtSound(p[1..], s, st.next);
      TokenSound(p[0], s, i, st, g, inner.end);
      var t := s[i..inner.end];
      assert t[st.next - i..] == s[st.next..inner.end];
      assert st.group.Some? ==> g[1..] == inner.groups;
      SpellsCons(p, g, t, Step(st.group, st.next - i), inner.groups);
    }
  }

  lemma TokenComplete(p: Pattern, s: string, i: nat, g: seq<string>, j: nat)
    requires WellFormed(p) && p != [] && i <= j <= |s| && Spells(p, g, s[i..j])
    ensures var st := TokenSpells(p[0], g, s[i..j]).value;
      MatchToken(p[0], s, i) == Some(Step(st.group, i + st.next))
  {
    WellFormedTail(p);
    var t := s[i..j];
    var st := TokenSpells(p[0], g, t).value;
    assert s[i..i + st.next] == t[..st.next];
    if p[0].Hex? {
      HexComplete(p, s, i, g, j);
    } else if p[0].Either? {
      EitherComplete(p[0].first, p[0].second, s, i, g[0]);
    }
  }

  lemma HexComplete(p: Pattern, s: string, i: nat, g: seq<string>, j: nat)
    requires WellFormed(p) && p != [] && p[0].Hex? && i <= j <= |s| && Spells(p, g, s[i..j])
    ensures HexRunEnd(s, i) == i + |g[0]|
  {
    WellFormedTail(p);
    var t := s[i..j];
    var k := |g[0]|;
    var x := p[1].text;
    var rest := t[k..];
    assert s[i..i + k] == t[..k];
    assert Spells(p[1..], g[1..], rest);
    assert TokenSpells(p[1..][0], g[1..], rest).Some?;
    assert rest[..|x|] == x;
    assert i + k < |s| && s[i + k] == x[0];
    HexRunEndAt(s, i, i + k);
  }

  lemma StartsWithHead(s: string, i: nat, x: string)
    requires |x| > 0
    ensures StartsWith(s, i, x) ==> i < |s| && s[i] == x[0]
  {
    if StartsWith(s, i, x) {
      assert s[i..i + |x|][0] == x[0];
    }
  }

  lemma EitherComplete(a: string, b: string, s: string, i: nat, g0: string)
    requires |a| > 0 && |b| > 0 && a[0] != b[0]
    requires (g0 == a || g0 == b) && StartsWith(s, i, g0)
    ensures MatchToken(Either(a, b), s, i) == Some(Step(Some(g0), i + |g0|))
  {
    if g0 != a {
      assert s[i] == s[i..i + |b|][0] == b[0];
      StartsWithHead(s, i, a);
    }
  }

  lemma SpellsHead(p: Pattern, g: seq<string>, t: string)
    requires p != [] && Spells(p, g, t)
    ensures TokenSpells(p[0], g, t).Some?
    ensures var st := TokenSpells(p[0], g, t).value;
      && st.next <= |t|
      && (st.group.Some? ==> |g| > 0 && st.group.value == g[0])
      && Spells(p[1..], if st.group.Some? then g[1..] else g, t[st.next..])
  {
  }

  lemma MatchAtStep(p: Pattern, s: string, i: nat, st: Step, m: Match)
    requires p != [] && i <= |s| && MatchToken(p[0], s, i) == Some(st)
    requires st.next <= |s| && MatchAt(p[1..], s, st.next) == Some(m)
    ensures MatchAt(p, s, i) == Prepend(st.group, Some(m))
  {
  }

  /** On a well-formed pattern the greedy matcher finds every spelling there is. */
  lemma {:induction false} MatchAtComplete(p: Pattern, s: string, i: nat, g: seq<string>, j: nat)
    requires WellFormed(p) && i <= j <= |s| && Spells(p, g, s[i..j])
    ensures MatchAt(p, s, i) == Some(Match(g, j))
    decreases |p|
  {
    if p != [] {
      WellFormedTail(p);
      var t := s[i..j];
      SpellsHead(p, g, t);
      var st := TokenSpells(p[0], g, t).value;
      TokenComplete(p, s, i, g, j);
      var k := i + st.next;
      assert t[st.next..] == s[k..j];
      var g' := if st.group.Some? then g[1..] else g;
      MatchAtComplete(p[1..], s, k, g', j);
      MatchAtStep(p, s, i, Step(st.group, k), Match(g', j));
      if st.group.Some? {
        assert [g[0]] + g[1..] == g;
      }
    }
  }

  // ---------------------------------------------------------------------
  // re.findall

  /**
    re.findall from position `i`: the groups of each non-overlapping match, left
    to right; after a match the scan resumes where it ended, otherwise one
    character further on.
  */
  function FindAll(p: Pattern, s: string, i: nat): seq<seq<string>>
    requires WellFormed(p) && p != [] && i <= |s|
    decreases |s| - i
  {
    var m := MatchAt(p, s, i);
    if m.Some? then [m.value.groups] + FindAll(p, s, m.value.end)
    else if i < |s| then FindAll(p, s, i + 1)
    else []
  }

  /** Where the n-th result of findall was found: a stretch of `s` from `i` on that spells the pattern with its groups. */
  lemma {:induction false} FindAllSpan(p: Pattern, s: string, i: nat, n: nat) returns (a: nat, b: nat)
    requires WellFormed(p) && p != [] && i <= |s| && n < |FindAll(p, s, i)|
    ensures i <= a <= b <= |s| && Spells(p, FindAll(p, s, i)[n], s[a..b])
    decreases |s| - i
  {
    var m := MatchAt(p, s, i);
    if m.Some? {
      if n == 0 {
        MatchAtSound(p, s, i);
        a, b := i, m.value.end;
      } else {
        a, b := FindAllSpan(p, s, m.value.end, n - 1);
      }
    } else {
      a, b := FindAllSpan(p, s, i + 1, n);
    }
  }

  /** Every result of findall is the groups of a text that spells the pattern. */
  lemma FindAllSound(p: Pattern, s: string, i: nat, n: nat)
    requires WellFormed(p) && p != [] && i <= |s| && n < |FindAll(p, s, i)|
    ensures exists a, b :: i <= a <= b <= |s| && Spells(p, FindAll(p, s, i)[n], s[a..b])
  {
    var a, b := FindAllSpan(p, s, i, n);
  }

  /** The pattern matches at no position from `i` to the end of `s`. */
  predicate NoMatchFrom(p: Pattern, s: string, i: nat)
    requires i <= |s|
  {
    forall k :: i <= k <= |s| ==> MatchAt(p, s, k).None?
  }

  /** findall finds nothing exactly when the pattern matches at no position. */
  lemma {:induction false} FindAllEmpty(p: Pattern, s: string, i: nat)
    requires WellFormed(p) && p != [] && i <= |s|
    ensures FindAll(p, s, i) == [] <==> NoMatchFrom(p, s, i)
    decreases |s| - i
  {
    if MatchAt(p, s, i).Some? {
      assert FindAll(p, s, i) != [];
      assert !NoMatchFrom(p, s, i);
    } else if i < |s| {
      assert FindAll(p, s, i) == FindAll(p, s, i + 1);
      FindAllEmpty(p, s, i + 1);
      assert NoMatchFrom(p, s, i) <==> NoMatchFrom(p, s, i + 1) by {
        if NoMatchFrom(p, s, i + 1) {
          forall k | i <= k <= |s|
            ensures MatchAt(p, s, k).None?
          {
            if k != i {
              assert i + 1 <= k;
            }
          }
        }
      }
    } else {
      assert FindAll(p, s, i) == [];
      assert NoMatchFrom(p, s, i) by {
        forall k | i <= k <= |s|
          ensures MatchAt(p, s, k).None?
        {
          assert k == i;
        }
      }
    }
  }

  /** The first result of findall is the match at the leftmost matching position. */
  lemma {:induction false} FindAllFirst(p: Pattern, s: string, i: nat, k: nat)
    requires WellFormed(p) && p != [] && i <= k <= |s|
    requires MatchAt(p, s, k).Some? && forall q :: i <= q < k ==> MatchAt(p, s, q).None?
    ensures FindAll(p, s, i) != [] && FindAll(p, s, i)[0] == MatchAt(p, s, k).value.groups
    decreases k - i
  {
    if i < k {
      FindAllFirst(p, s, i + 1, k);
    }
  }

  // ---------------------------------------------------------------------
  // The groups a match captures

  /** What a captured group holds: a non-empty run of hex digits, or one of the two alternatives. */
  predicate GroupFits(tok: Token, group: string) {
    match tok
    case Hex => group != [] && IsHex(group)
    case Either(a, b) => group == a || group == b
    case _ => false
  }

  /** `g` holds one fitting group per capturing token of `p`, in order. */
  predicate GroupsFit(p: Pattern, g: seq<string>)
    decreases |p|
  {
    if p == [] then g == []
    else if IsCapture(p[0]) then |g| > 0 && GroupFits(p[0], g[0]) && GroupsFit(p[1..], g[1..])
    else GroupsFit(p[1..], g)
  }

  lemma {:induction false} SpellsFit(p: Pattern, g: seq<string>, t: string)
    requires Spells(p, g, t)
    ensures GroupsFit(p, g)
    decreases |p|
  {
    if p != [] {
      var st := TokenSpells(p[0], g, t).value;
      if IsCapture(p[0]) {
        assert st.group.Some?;
        SpellsFit(p[1..], g[1..], t[st.next..]);
      } else {
        assert st.group.None?;
        SpellsFit(p[1..], g, t[st.next..]);
      }
    }
  }

  /** Every result of findall holds one fitting group per capturing token. */
  lemma FindAllFit(p: Pattern, s: string)
    requires WellFormed(p) && p != []
    ensures forall n :: 0 <= n < |FindAll(p, s, 0)| ==> GroupsFit(p, FindAll(p, s, 0)[n])
  {
    forall n | 0 <= n < |FindAll(p, s, 0)|
      ensures GroupsFit(p, FindAll(p, s, 0)[n])
    {
      FindAllSound(p, s, 0, n);
      var a, b :| 0 <= a <= b <= |s| && Spells(p, FindAll(p, s, 0)[n], s[a..b]);
      SpellsFit(p, FindAll(p, s, 0)[n], s[a..b]);
    }
  }
}

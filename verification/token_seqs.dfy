/** Reference definitions over token sequences, stated without any reader:
    where the first token of some kinds sits, which tokens of some kinds a
    stretch holds, how a stretch splits at a separator. The parser's loops are
    proved against these. */
module TokenSeqs {
  import opened Const

  /** The index of the first token whose kind is in `stop`, or the length of
      the sequence when there is none. */
  function FirstOf(ts: seq<Token>, stop: set<TokenType>): (i: nat)
    ensures i <= |ts|
    ensures forall k :: 0 <= k < i ==> ts[k].kind !in stop
    ensures i < |ts| ==> ts[i].kind in stop
  {
    if |ts| == 0 then 0
    else if ts[0].kind in stop then 0
    else 1 + FirstOf(ts[1..], stop)
  }

  /** `FirstOf` is the only index with its two defining properties. */
  lemma FirstOfUnique(ts: seq<Token>, stop: set<TokenType>, i: nat)
    requires i <= |ts|
    requires forall k :: 0 <= k < i ==> ts[k].kind !in stop
    requires i < |ts| ==> ts[i].kind in stop
    ensures FirstOf(ts, stop) == i
  {
  }

  /** No token of the sequence has one of the kinds. */
  predicate Free(ts: seq<Token>, kinds: set<TokenType>) {
    forall i :: 0 <= i < |ts| ==> ts[i].kind !in kinds
  }

  /** The search for a stop kind runs to the end exactly when the sequence
      holds none. */
  lemma FreeIsFirstOfEnd(ts: seq<Token>, stop: set<TokenType>)
    ensures Free(ts, stop) <==> FirstOf(ts, stop) == |ts|
  {
    if Free(ts, stop) {
      FirstOfUnique(ts, stop, |ts|);
    }
  }

  /** Past a token whose kind is not a stop kind, the search goes on one
      further. */
  lemma FirstOfTail(ts: seq<Token>, stop: set<TokenType>)
    requires 0 < |ts| && ts[0].kind !in stop
    ensures FirstOf(ts, stop) == 1 + FirstOf(ts[1..], stop)
  {
  }

  /** The tokens whose kind is in `kinds`, in their original order. */
  function Keep(ts: seq<Token>, kinds: set<TokenType>): (r: seq<Token>)
    ensures |r| <= |ts|
  {
    if |ts| == 0 then []
    else (if ts[0].kind in kinds then [ts[0]] else []) + Keep(ts[1..], kinds)
  }

  /** Every kept token has one of the kinds and is a token of the sequence. */
  lemma {:induction false} KeepKinds(ts: seq<Token>, kinds: set<TokenType>)
    decreases |ts|
    ensures forall k :: 0 <= k < |Keep(ts, kinds)| ==> Keep(ts, kinds)[k].kind in kinds && Keep(ts, kinds)[k] in ts
  {
    if |ts| > 0 {
      KeepKinds(ts[1..], kinds);
      var r := Keep(ts, kinds);
      var h := if ts[0].kind in kinds then [ts[0]] else [];
      assert r == h + Keep(ts[1..], kinds);
      forall k | 0 <= k < |r| ensures r[k].kind in kinds && r[k] in ts {
        if k >= |h| {
          assert r[k] == Keep(ts[1..], kinds)[k - |h|];
        }
      }
    }
  }

  /** Keeping distributes over concatenation, so the kept tokens of a
      stretch are an in-order subsequence of it. */
  lemma {:induction false} KeepAppend(a: seq<Token>, b: seq<Token>, kinds: set<TokenType>)
    decreases |a|
    ensures Keep(a + b, kinds) == Keep(a, kinds) + Keep(b, kinds)
  {
    if |a| > 0 {
      assert (a + b)[1..] == a[1..] + b;
      KeepAppend(a[1..], b, kinds);
    } else {
      assert a + b == b;
    }
  }

  /** A token is kept exactly when its kind is one of the kinds. */
  lemma KeepOne(t: Token, kinds: set<TokenType>)
    ensures Keep([t], kinds) == if t.kind in kinds then [t] else []
  {
    assert [t][1..] == [];
  }

  /** The kept tokens of a non-empty prefix: the first token's share, then
      the rest of the prefix's. */
  lemma KeepPrefix(ts: seq<Token>, k: nat, kinds: set<TokenType>)
    requires 0 < k <= |ts|
    ensures Keep(ts[..k], kinds) == Keep([ts[0]], kinds) + Keep(ts[1..][..k - 1], kinds)
  {
    assert ts[..k] == [ts[0]] + ts[1..][..k - 1];
    KeepAppend([ts[0]], ts[1..][..k - 1], kinds);
  }

  /** A stretch seen from its first token: the prefix of length `k` is the
      first token and the rest's prefix of length `k - 1`, and what follows
      the prefix is the same either way. */
  lemma PrefixStep(a: seq<Token>, ts: seq<Token>, k: nat)
    requires 0 < k <= |ts|
    ensures (a + [ts[0]]) + ts[1..][..k - 1] == a + ts[..k]
    ensures ts[1..][k - 1..] == ts[k..]
  {
    assert ts[..k] == [ts[0]] + ts[1..][..k - 1];
  }

  /** Seen from the second token on, the token at `k` is one place earlier
      and what follows it is the same. */
  lemma Shifted(ts: seq<Token>, k: nat)
    requires 0 < k < |ts|
    ensures ts[1..][k - 1] == ts[k] && ts[1..][k..] == ts[k + 1..]
  {
  }

  /** The stretch from `k` on starts with `ts[k]`, then the stretch after it. */
  lemma FromAt(ts: seq<Token>, k: nat)
    requires k < |ts|
    ensures ts[k..][0] == ts[k] && ts[k..][1..] == ts[k + 1..]
  {
  }

  /** Moving the first token of a stretch onto the end of what precedes it. */
  lemma AppendStep(a: seq<Token>, ts: seq<Token>)
    requires 0 < |ts|
    ensures (a + [ts[0]]) + ts[1..] == a + ts
  {
  }

  /** The pieces of a stretch built around one token. */
  lemma SplitAround(l: seq<Token>, t: Token, r: seq<Token>)
    ensures var ts := l + [t] + r;
      ts[..|l|] == l && ts[|l|] == t && ts[|l| + 1..] == r
  {
  }

  /** A stretch is what precedes one of its tokens, the token, and what
      follows it. */
  lemma Around(ts: seq<Token>, k: nat)
    requires k < |ts|
    ensures ts == ts[..k] + [ts[k]] + ts[k + 1..]
  {
  }

  /** Keeping along a prefix, one token at a time. */
  lemma KeepStep(a: seq<Token>, ts: seq<Token>, k: nat, kinds: set<TokenType>)
    requires 0 < k <= |ts|
    ensures (a + Keep([ts[0]], kinds)) + Keep(ts[1..][..k - 1], kinds) == a + Keep(ts[..k], kinds)
  {
    KeepPrefix(ts, k, kinds);
  }

  /** How many tokens of kind `kind` the sequence holds. */
  function Count(ts: seq<Token>, kind: TokenType): nat {
    |Keep(ts, {kind})|
  }

  /** The stretches between the separators, in order: one more than there are
      separators, none of them holding a separator. */
  function SplitOn(ts: seq<Token>, sep: TokenType): (groups: seq<seq<Token>>)
    decreases |ts|
    ensures |groups| > 0
  {
    var k := FirstOf(ts, {sep});
    if k == |ts| then [ts] else [ts[..k]] + SplitOn(ts[k + 1..], sep)
  }

  /** The groups with the separator tokens put back between them. */
  function Interleave(groups: seq<seq<Token>>, seps: seq<Token>): seq<Token>
    requires |groups| == |seps| + 1
    decreases |seps|
  {
    if |seps| == 0 then groups[0] else groups[0] + [seps[0]] + Interleave(groups[1..], seps[1..])
  }

  /** The kept tokens of a sequence, seen around one of its tokens. */
  lemma KeepAround(ts: seq<Token>, k: nat, kinds: set<TokenType>)
    requires k < |ts|
    ensures Keep(ts, kinds) == Keep(ts[..k], kinds) + Keep([ts[k]], kinds) + Keep(ts[k + 1..], kinds)
  {
    assert ts == ts[..k] + ([ts[k]] + ts[k + 1..]);
    KeepAppend(ts[..k], [ts[k]] + ts[k + 1..], kinds);
    KeepAppend([ts[k]], ts[k + 1..], kinds);
  }

  /** Splitting at a separator gives one group more than there are
      separators. */
  lemma {:induction false} SplitOnCount(ts: seq<Token>, sep: TokenType)
    decreases |ts|
    ensures |SplitOn(ts, sep)| == Count(ts, sep) + 1
  {
    var k := FirstOf(ts, {sep});
    if k == |ts| {
      KeepNone(ts, {sep});
    } else {
      SplitOnFirst(ts, sep, k);
      SplitOnCount(ts[k + 1..], sep);
    }
  }

  /** No group holds a separator. */
  lemma {:induction false} SplitOnSeparatorFree(ts: seq<Token>, sep: TokenType)
    decreases |ts|
    ensures var groups := SplitOn(ts, sep);
      forall g, k :: 0 <= g < |groups| && 0 <= k < |groups[g]| ==> groups[g][k].kind != sep
  {
    var k := FirstOf(ts, {sep});
    if k < |ts| {
      var rest := ts[k + 1..];
      SplitOnSeparatorFree(rest, sep);
      assert SplitOn(ts, sep) == [ts[..k]] + SplitOn(rest, sep);
    }
  }

  /** Up to the first separator, one group; the separator is the first
      separator token; the rest is split the same way. */
  lemma SplitOnFirst(ts: seq<Token>, sep: TokenType, k: nat)
    requires k == FirstOf(ts, {sep}) < |ts|
    ensures SplitOn(ts, sep) == [ts[..k]] + SplitOn(ts[k + 1..], sep)
    ensures Keep(ts, {sep}) == [ts[k]] + Keep(ts[k + 1..], {sep})
  {
    KeepFirst(ts, {sep}, k);
  }

  /** The kept tokens start at the first token of the kinds. */
  lemma KeepFirst(ts: seq<Token>, kinds: set<TokenType>, k: nat)
    requires k == FirstOf(ts, kinds) < |ts|
    ensures Keep(ts, kinds) == [ts[k]] + Keep(ts[k + 1..], kinds)
  {
    KeepAround(ts, k, kinds);
    PrefixBeforeFirstFree(ts, kinds, k);
    KeepNone(ts[..k], kinds);
    KeepOne(ts[k], kinds);
    NothingBefore([ts[k]]);
  }

  /** The stretch before the first stop token holds no stop token. */
  lemma PrefixBeforeFirstFree(ts: seq<Token>, stop: set<TokenType>, k: nat)
    requires k == FirstOf(ts, stop)
    ensures forall j :: 0 <= j < |ts[..k]| ==> ts[..k][j].kind !in stop
  {
    forall j | 0 <= j < |ts[..k]| ensures ts[..k][j].kind !in stop {
      assert ts[..k][j] == ts[j];
    }
  }

  /** An empty stretch behind changes nothing. */
  lemma NothingAfter(a: seq<Token>)
    ensures a + [] == a
  {
  }

  /** An empty stretch in front changes nothing. */
  lemma NothingBefore(a: seq<Token>)
    ensures [] + a == a
  {
  }

  /** Interleaving starts with the first group and the first separator. */
  lemma InterleaveCons(g: seq<Token>, s: Token, groups: seq<seq<Token>>, seps: seq<Token>)
    requires |groups| == |seps| + 1
    ensures Interleave([g] + groups, [s] + seps) == g + [s] + Interleave(groups, seps)
  {
    assert ([g] + groups)[1..] == groups;
    assert ([s] + seps)[1..] == seps;
  }

  /** Putting the separator tokens back between the groups gives the
      sequence back. */
  lemma {:induction false} SplitOnJoin(ts: seq<Token>, sep: TokenType)
    decreases |ts|
    ensures |SplitOn(ts, sep)| == |Keep(ts, {sep})| + 1
    ensures Interleave(SplitOn(ts, sep), Keep(ts, {sep})) == ts
  {
    var k := FirstOf(ts, {sep});
    if k == |ts| {
      KeepNone(ts, {sep});
    } else {
      var rest := ts[k + 1..];
      SplitOnFirst(ts, sep, k);
      SplitOnJoin(rest, sep);
      InterleaveCons(ts[..k], ts[k], SplitOn(rest, sep), Keep(rest, {sep}));
      Around(ts, k);
    }
  }

  /** Keeping kinds a stretch does not hold keeps nothing. */
  lemma {:induction false} KeepNone(ts: seq<Token>, kinds: set<TokenType>)
    requires forall k :: 0 <= k < |ts| ==> ts[k].kind !in kinds
    decreases |ts|
    ensures Keep(ts, kinds) == []
  {
    if |ts| > 0 {
      KeepNone(ts[1..], kinds);
    }
  }
}

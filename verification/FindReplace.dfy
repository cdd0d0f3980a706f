/** Find and replace in place: one meaning, three ways to get there without a second buffer. */
module FindReplace {
  import opened BString
  import opened BSearch
  import Bits

  // ---------- the meaning ----------

  /** The text from position p on with every leftmost, non-overlapping w replaced by t. */
  function ReplacedFrom(s: Text, p: nat, w: Text, t: Text): Text
    requires p <= |s| && |w| > 0
    decreases |s| - p
  {
    if p + |w| > |s| then s[p..]
    else if MatchAt(s, p, w) then t + ReplacedFrom(s, p + |w|, w, t)
    else [s[p]] + ReplacedFrom(s, p + 1, w, t)
  }

  function ReplacedAll(s: Text, pos: nat, w: Text, t: Text): Text
    requires pos <= |s| && |w| > 0
  {
    s[..pos] + ReplacedFrom(s, pos, w, t)
  }

  /** How many there are. */
  function Matches(s: Text, p: nat, w: Text): nat
    requires p <= |s| && |w| > 0
    decreases |s| - p
  {
    if p + |w| > |s| then 0
    else if MatchAt(s, p, w) then 1 + Matches(s, p + |w|, w)
    else Matches(s, p + 1, w)
  }

  ghost predicate NoneIn(s: Text, p: nat, q: nat, w: Text) {
    forall k :: p <= k < q ==> !MatchAt(s, k, w)
  }

  lemma FirstIs(s: Text, p: nat, w: Text, r: int)
    requires p <= |s| && IsFirst(s, p, w, r)
    ensures r == ERR ==> NoneIn(s, p, |s|, w)
    ensures r != ERR ==> p <= r <= |s| - |w| && NoneIn(s, p, r, w) && MatchAt(s, r, w)
  {
  }

  lemma {:induction false} SkipTo(s: Text, p: nat, q: nat, w: Text, t: Text)
    requires |w| > 0 && p <= q <= |s| && NoneIn(s, p, q, w)
    ensures ReplacedFrom(s, p, w, t) == s[p..q] + ReplacedFrom(s, q, w, t)
    ensures Matches(s, p, w) == Matches(s, q, w)
    decreases q - p
  {
    hide ReplacedFrom, Matches, MatchAt;
    if p < q {
      assert !MatchAt(s, p, w);
      SkipOne(s, p, w, t);
      SkipTo(s, p + 1, q, w, t);
      SkippedText(s, p, q, ReplacedFrom(s, q, w, t));
    } else {
      assert s[p..q] == [];
    }
  }

  lemma SkipOne(s: Text, p: nat, w: Text, t: Text)
    requires |w| > 0 && p < |s| && !MatchAt(s, p, w)
    ensures ReplacedFrom(s, p, w, t) == [s[p]] + ReplacedFrom(s, p + 1, w, t)
    ensures Matches(s, p, w) == Matches(s, p + 1, w)
  {
    hide MatchAt;
    if p + |w| > |s| { assert s[p..] == [s[p]] + s[p + 1..]; }
  }

  lemma SkippedText(s: Text, p: nat, q: nat, rest: Text)
    requires p < q <= |s|
    ensures [s[p]] + (s[p + 1..q] + rest) == s[p..q] + rest
  {
    assert s[p..q] == [s[p]] + s[p + 1..q];
  }

  lemma TakeMatch(s: Text, p: nat, w: Text, t: Text)
    requires |w| > 0 && MatchAt(s, p, w)
    ensures ReplacedFrom(s, p, w, t) == t + ReplacedFrom(s, p + |w|, w, t)
    ensures Matches(s, p, w) == 1 + Matches(s, p + |w|, w)
  {
  }

  lemma AtTheEnd(s: Text, w: Text, t: Text)
    requires |w| > 0
    ensures ReplacedFrom(s, |s|, w, t) == [] && Matches(s, |s|, w) == 0
  {
  }

  lemma MatchText(s: Text, p: nat, w: Text)
    requires MatchAt(s, p, w)
    ensures p + |w| <= |s| && s[p..] == w + s[p + |w|..]
  {
  }

  lemma {:induction false} ReplacedLength(s: Text, p: nat, w: Text, t: Text)
    requires p <= |s| && |w| > 0
    ensures |ReplacedFrom(s, p, w, t)| == |s| - p + Matches(s, p, w) * (|t| - |w|)
    decreases |s| - p
  {
    hide *;
    if p == |s| {
      AtTheEnd(s, w, t);
    } else if MatchAt(s, p, w) {
      MatchText(s, p, w);
      TakeMatch(s, p, w, t);
      ReplacedLength(s, p + |w|, w, t);
      Distribute(Matches(s, p + |w|, w), |t| - |w|);
    } else {
      SkipOne(s, p, w, t);
      ReplacedLength(s, p + 1, w, t);
    }
  }

  lemma Distribute(n: int, g: int)
    ensures (1 + n) * g == g + n * g
  {
  }

  /** Replacing a text by itself changes nothing. */
  lemma {:induction false} ReplacedByItself(s: Text, p: nat, w: Text)
    requires p <= |s| && |w| > 0
    ensures ReplacedFrom(s, p, w, w) == s[p..]
    decreases |s| - p
  {
    hide *;
    if p == |s| {
      AtTheEnd(s, w, w);
    } else if MatchAt(s, p, w) {
      MatchText(s, p, w);
      TakeMatch(s, p, w, w);
      ReplacedByItself(s, p + |w|, w);
    } else {
      SkipOne(s, p, w, w);
      ReplacedByItself(s, p + 1, w);
      assert s[p..] == [s[p]] + s[p + 1..];
    }
  }

  lemma SamePart(s: Text, cur: Text, pos: nat, p: nat, q: nat)
    requires pos <= p <= q <= |s| == |cur| && cur[pos..] == s[pos..]
    ensures s[p..q] == cur[p..q]
  {
    forall k | p <= k < q
      ensures s[k] == cur[k]
    {
      assert s[k] == s[pos..][k - pos] && cur[k] == cur[pos..][k - pos];
    }
  }

  /** The search sees only what is from pos on. */
  lemma FirstBehind(s: Text, cur: Text, pos: nat, w: Text, r: int)
    requires pos <= |s| == |cur| && cur[pos..] == s[pos..] && IsFirst(cur, pos, w, r)
    ensures IsFirst(s, pos, w, r)
  {
    forall p: nat | p >= pos
      ensures MatchAt(s, p, w) == MatchAt(cur, p, w)
    {
      if pos <= p <= |s| - |w| { SamePart(s, cur, pos, p, p + |w|); }
    }
  }

  // ---------- equal and shorter replacements, left to right ----------

  /** Up to p everything is replaced, acc bytes were saved, and from p on nothing is touched. */
  ghost predicate Shrunk(cur: Text, s: Text, pos: nat, w: Text, t: Text, p: nat, acc: nat) {
    && pos <= p <= |s| <= |cur| && acc <= p && |w| > 0
    && cur[p..|s|] == s[p..]
    && cur[..p - acc] + ReplacedFrom(s, p, w, t) == ReplacedAll(s, pos, w, t)
  }

  /** cur after s[p..i] moved down by acc; the move is left out when it would change nothing. */
  function Lowered(cur: Text, p: nat, i: nat, acc: nat): (r: Text)
    requires acc <= p <= i <= |cur|
    ensures |r| == |cur|
  {
    if acc > 0 && i > p then Pasted(cur, p - acc, cur[p..i]) else cur
  }

  lemma LoweredIs(cur: Text, p: nat, i: nat, acc: nat)
    requires acc <= p <= i <= |cur|
    ensures Lowered(cur, p, i, acc) == if acc > 0 && i > p then Pasted(cur, p - acc, cur[p..i]) else cur
  {
  }

  lemma ShrunkIs(cur: Text, s: Text, pos: nat, w: Text, t: Text, p: nat, acc: nat)
    requires Shrunk(cur, s, pos, w, t, p, acc)
    ensures pos <= p <= |s| <= |cur| && acc <= p && cur[p..|s|] == s[p..]
  {
  }

  lemma LoweredText(cur: Text, s: Text, p: nat, i: nat, acc: nat)
    requires acc <= p <= i <= |s| <= |cur| && cur[p..|s|] == s[p..]
    ensures var r := Lowered(cur, p, i, acc); r[..i - acc] == cur[..p - acc] + s[p..i] && r[i..|s|] == s[i..]
  {
    var r := Lowered(cur, p, i, acc);
    assert cur[p..i] == s[p..i] by {
      assert cur[p..i] == cur[p..|s|][..i - p];
      assert s[p..i] == s[p..][..i - p];
    }
    assert r[i..|s|] == cur[i..|s|] == cur[p..|s|][i - p..];
    if acc > 0 && i > p {
      PastedUpTo(cur, p - acc, cur[p..i]);
    } else if acc == 0 {
      assert cur[..i] == cur[..p] + cur[p..i];
    }
  }

  lemma ShrinkStep(cur: Text, s: Text, pos: nat, w: Text, t: Text, p: nat, acc: nat, i: nat)
    requires Shrunk(cur, s, pos, w, t, p, acc) && |t| <= |w| && IsFirst(s, p, w, i)
    ensures p <= i && i + |w| <= |s| && i - acc + |t| <= |cur|
    ensures Shrunk(Pasted(Lowered(cur, p, i, acc), i - acc, t), s, pos, w, t, i + |w|, acc + |w| - |t|)
  {
    hide IsFirst, MatchAt, ReplacedFrom, Lowered;
    FirstIs(s, p, w, i);
    var low := Lowered(cur, p, i, acc);
    var r := Pasted(low, i - acc, t);
    SkipTo(s, p, i, w, t);
    TakeMatch(s, i, w, t);
    LoweredText(cur, s, p, i, acc);
    assert r[..i - acc + |t|] == low[..i - acc] + t by { PastedUpTo(low, i - acc, t); }
    assert r[i + |w|..|s|] == low[i + |w|..|s|] == low[i..|s|][|w|..];
    assert s[i..][|w|..] == s[i + |w|..];
    var rest := ReplacedFrom(s, i + |w|, w, t);
    assert cur[..p - acc] + s[p..i] + t + rest == cur[..p - acc] + (s[p..i] + (t + rest));
  }

  lemma ShrinkEnd(cur: Text, s: Text, pos: nat, w: Text, t: Text, p: nat, acc: nat)
    requires Shrunk(cur, s, pos, w, t, p, acc) && IsFirst(s, p, w, ERR)
    ensures Lowered(cur, p, |s|, acc)[..|s| - acc] == ReplacedAll(s, pos, w, t)
  {
    hide IsFirst, MatchAt, ReplacedFrom, Lowered;
    FirstIs(s, p, w, ERR);
    SkipTo(s, p, |s|, w, t);
    AtTheEnd(s, w, t);
    LoweredText(cur, s, p, |s|, acc);
    assert s[p..|s|] + [] == s[p..|s|];
  }

  // ---------- longer replacements, right to left ----------

  /** Where the search for match i starts. */
  function After(d: seq<int>, pos: nat, w: Text, i: nat): int
    requires i <= |d|
  {
    if i == 0 then pos else d[i - 1] + |w|
  }

  ghost predicate FoundAt(d: seq<int>, s: Text, pos: nat, w: Text, i: nat)
    requires i < |d|
  {
    0 <= pos <= After(d, pos, w, i) <= d[i] <= |s| - |w| && NoneIn(s, After(d, pos, w, i), d[i], w) && MatchAt(s, d[i], w)
  }

  /** The positions of all matches from pos on up to position p, in order. */
  ghost predicate Found(d: seq<int>, s: Text, pos: nat, w: Text, p: nat) {
    && pos <= p <= |s| && |w| > 0
    && (forall i :: 0 <= i < |d| ==> FoundAt(d, s, pos, w, i))
    && p == After(d, pos, w, |d|)
  }

  lemma FoundMore(d: seq<int>, s: Text, pos: nat, w: Text, p: nat, i: int)
    requires Found(d, s, pos, w, p) && IsFirst(s, p, w, i) && i != ERR
    ensures i + |w| <= |s| && Found(d + [i], s, pos, w, i + |w|)
  {
    hide IsFirst, MatchAt, NoneIn;
    FirstIs(s, p, w, i);
    var e := d + [i];
    forall k | 0 <= k < |e|
      ensures FoundAt(e, s, pos, w, k)
    {
      if k < |d| { assert FoundAt(d, s, pos, w, k); }
    }
  }

  lemma {:induction false} FoundCount(d: seq<int>, s: Text, pos: nat, w: Text, p: nat)
    requires Found(d, s, pos, w, p)
    ensures Matches(s, pos, w) == |d| + Matches(s, p, w)
  {
    hide MatchAt, NoneIn, Matches;
    if d != [] {
      var k := |d| - 1;
      var e := d[..k];
      assert FoundAt(d, s, pos, w, k);
      forall i | 0 <= i < k
        ensures FoundAt(e, s, pos, w, i)
      {
        assert FoundAt(d, s, pos, w, i);
      }
      FoundCount(e, s, pos, w, After(d, pos, w, k));
      SkipTo(s, After(d, pos, w, k), d[k], w, []);
      TakeMatch(s, d[k], w, []);
    }
  }

  /** Where the text from match i on begins; the last match is followed by the end. */
  function Start(d: seq<int>, s: Text, i: nat): int
    requires i <= |d|
  {
    if i == |d| then |s| else d[i]
  }

  /** From match i on everything is in its final place, shift bytes further right, and what is before
      match i is untouched. */
  ghost predicate Grown(cur: Text, s: Text, d: seq<int>, w: Text, t: Text, i: nat, shift: nat) {
    && i <= |d| && |w| > 0 && 0 <= Start(d, s, i) <= |s| && Start(d, s, i) + shift <= |cur|
    && cur[..Start(d, s, i)] == s[..Start(d, s, i)]
    && cur[Start(d, s, i) + shift..] == ReplacedFrom(s, Start(d, s, i), w, t)
  }

  /** From match i on: the replacement, the text up to the next match, and so on. */
  lemma TailOfMatch(d: seq<int>, s: Text, pos: nat, w: Text, t: Text, p: nat, i: nat)
    requires Found(d, s, pos, w, p) && i < |d| && NoneIn(s, p, |s|, w)
    ensures pos <= d[i] && d[i] + |w| <= Start(d, s, i + 1) <= |s|
    ensures ReplacedFrom(s, d[i], w, t) ==
            t + (s[d[i] + |w|..Start(d, s, i + 1)] + ReplacedFrom(s, Start(d, s, i + 1), w, t))
  {
    hide MatchAt, NoneIn, ReplacedFrom;
    assert FoundAt(d, s, pos, w, i);
    if i + 1 < |d| { assert FoundAt(d, s, pos, w, i + 1); }
    TakeMatch(s, d[i], w, t);
    SkipTo(s, d[i] + |w|, Start(d, s, i + 1), w, t);
  }

  lemma GrowStep(cur: Text, s: Text, d: seq<int>, pos: nat, w: Text, t: Text, p: nat, i: nat, acc: nat)
    requires Found(d, s, pos, w, p) && NoneIn(s, p, |s|, w) && i < |d|
    requires Grown(cur, s, d, w, t, i + 1, acc) && acc >= |t| - |w| >= 0
    ensures pos <= d[i] && d[i] + |w| <= Start(d, s, i + 1) <= |s|
    ensures var q, e := d[i] + |w|, Start(d, s, i + 1);
            && e + acc <= |cur| && |t| <= q + acc
            && Grown(Pasted(Pasted(cur, q + acc, cur[q..e]), q + acc - |t|, t), s, d, w, t, i, acc - (|t| - |w|))
  {
    hide MatchAt, NoneIn, ReplacedFrom, Found;
    TailOfMatch(d, s, pos, w, t, p, i);
    var q, e := d[i] + |w|, Start(d, s, i + 1);
    TwoPastes(cur, s, d[i], q, e, acc, t);
  }

  lemma TwoPastes(cur: Text, s: Text, k: nat, q: nat, e: nat, acc: nat, t: Text)
    requires k <= q <= e <= |s| && e + acc <= |cur| && cur[..e] == s[..e] && k <= q + acc - |t|
    ensures var r := Pasted(Pasted(cur, q + acc, cur[q..e]), q + acc - |t|, t);
            r[..k] == s[..k] && r[q + acc - |t|..] == t + (s[q..e] + cur[e + acc..])
  {
    assert cur[q..e] == cur[..e][q..] && s[q..e] == s[..e][q..];
    var one := Pasted(cur, q + acc, cur[q..e]);
    var two := Pasted(one, q + acc - |t|, t);
    assert one[q + acc..] == cur[q..e] + cur[e + acc..];
    assert two[q + acc - |t|..] == t + one[q + acc..];
    PastedBefore(cur, q + acc, cur[q..e], k);
    PastedBefore(one, q + acc - |t|, t, k);
    assert cur[..k] == cur[..e][..k] && s[..k] == s[..e][..k];
  }

  lemma GrowEnd(cur: Text, s: Text, d: seq<int>, pos: nat, w: Text, t: Text, p: nat)
    requires Found(d, s, pos, w, p) && NoneIn(s, p, |s|, w) && Grown(cur, s, d, w, t, 0, 0)
    ensures cur == ReplacedAll(s, pos, w, t)
  {
    hide MatchAt, NoneIn, ReplacedFrom;
    var e := Start(d, s, 0);
    assert cur == cur[..e] + cur[e..];
    if d != [] { assert FoundAt(d, s, pos, w, 0); }
    SkipTo(s, pos, e, w, t);
    assert s[..e] == s[..pos] + s[pos..e];
    var rest := ReplacedFrom(s, e, w, t);
    assert s[..pos] + (s[pos..e] + rest) == s[..pos] + s[pos..e] + rest;
  }

  // ---------- the program ----------

  /** Writes from position keep on do not reach what v reads. */
  ghost predicate Guarded(v: View, block: array<byte>, keep: nat) {
    v.Valid() && (v.block != block || v.start + v.len <= keep || v.len == 0)
  }

  /** An argument that may be overwritten is copied first; one that ends at or before pos is not. */
  method Detached(b: BString, v: View, pos: nat) returns (aux: View)
    requires b.Valid() && b.Readable(v) && v.len + 1 < SIZE_LIMIT
    ensures Guarded(aux, b.data, pos) && aux.len == v.len && aux.Text() == v.Text()
    ensures aux == v || fresh(aux.block)
    ensures aux.block == b.data ==> aux == v && (v.len == 0 || v.start + v.len <= pos)
    ensures v.block == b.data && v.len > 0 && v.start + v.len <= pos ==> aux == v
  {
    if v.block == b.data && pos - v.len < v.start && v.start < b.slen {
      var copy := new BString.CopyOf(v);
      aux := copy.All();
    } else {
      aux := v;
    }
  }

  /** A move within the text; f and r still read the same. */
  method MoveText(dst: array<byte>, d: nat, from: nat, len: nat, keep: nat, f: View, r: View)
    requires from + len <= dst.Length && keep <= d && d + len <= dst.Length
    requires Guarded(f, dst, keep) && Guarded(r, dst, keep)
    modifies dst
    ensures dst[..] == Pasted(old(dst[..]), d, old(dst[..])[from..from + len])
    ensures f.Text() == old(f.Text()) && r.Text() == old(r.Text())
  {
    hide Pasted;
    ghost var was, w, t := dst[..], f.Text(), r.Text();
    ReadBelow(dst, f);
    ReadBelow(dst, r);
    PastedBefore(dst[..], d, dst[..][from..from + len], keep);
    assert dst[from..from + len] == dst[..][from..from + len];
    Move(dst, d, View(dst, from, len));
    KeptBelow(dst, keep, was, f, w);
    KeptBelow(dst, keep, was, r, t);
  }

  lemma ReadBelow(dst: array<byte>, v: View)
    requires v.Valid()
    ensures v.block == dst ==> forall k :: 0 <= k < v.len ==> v.Text()[k] == dst[..][v.start + k]
  {
    forall k | v.block == dst && 0 <= k < v.len
      ensures v.Text()[k] == dst[..][v.start + k]
    {
      ViewAt(v, k);
    }
  }

  /** A view that ends below keep reads what it read, as long as nothing below keep is written. */
  lemma KeptBelow(dst: array<byte>, keep: nat, was: Text, v: View, t: Text)
    requires Guarded(v, dst, keep) && keep <= |was| == dst.Length && dst[..][..keep] == was[..keep]
    requires |t| == v.len && (v.block == dst ==> forall k :: 0 <= k < v.len ==> t[k] == was[v.start + k])
    requires v.block != dst ==> v.Text() == t
    ensures v.Text() == t
  {
    if v.block == dst {
      forall k | 0 <= k < v.len
        ensures t[k] == v.block[v.start + k]
      {
        assert dst[..][..keep][v.start + k] == was[..keep][v.start + k];
      }
      StillReads(v, t);
    }
  }

  /** The replacement is put at position d. */
  method PutText(dst: array<byte>, d: nat, keep: nat, f: View, r: View)
    requires keep <= d && d + r.len <= dst.Length
    requires Guarded(f, dst, keep) && Guarded(r, dst, keep)
    modifies dst
    ensures dst[..] == Pasted(old(dst[..]), d, old(r.Text()))
    ensures f.Text() == old(f.Text()) && r.Text() == old(r.Text())
  {
    hide Pasted;
    ghost var was, w, t := dst[..], f.Text(), r.Text();
    ReadBelow(dst, f);
    ReadBelow(dst, r);
    PastedBefore(dst[..], d, r.Text(), keep);
    Copy(dst, d, r);
    KeptBelow(dst, keep, was, f, w);
    KeptBelow(dst, keep, was, r, t);
  }

  /** The text with all matches from pos on replaced; a position behind the end has none. */
  function Replaced(s: Text, pos: nat, w: Text, t: Text): Text
    requires |w| > 0
  {
    if pos <= |s| then ReplacedAll(s, pos, w, t) else s
  }

  lemma NoRoom(s: Text, pos: nat, w: Text, t: Text)
    requires |w| > 0 && pos + |w| > |s|
    ensures Replaced(s, pos, w, t) == s && (pos <= |s| ==> Matches(s, pos, w) == 0)
  {
    if pos <= |s| { assert s[..pos] + s[pos..] == s; }
  }

  /** The index of matches cannot grow to this many: its size in bytes would not fit an int. */
  const MATCH_LIMIT := 0x800_0000
  const ENTRY_BYTES := 8

  /** When the engine reads a block that was given back: the replacement is longer than what it
      replaces, it lies in the buffer before pos, so that it is not copied, there is something to
      replace, and the result does not fit the buffer of mlen bytes. */
  predicate ReadsFreed(s: Text, mlen: nat, pos: int, w: Text, inBuffer: bool, start: nat, len: nat) {
    && 0 < |w| < len && 0 <= pos <= |s| && 0 < Matches(s, pos, w) < MATCH_LIMIT
    && inBuffer && start + len <= pos
    && mlen <= |s| + Growth(Matches(s, pos, w), len - |w|) + 1
  }

  /** In a buffer of 16 bytes the text "abcdexxx" grows to 20 when each "x" is replaced by its own
      first five bytes. */
  lemma FreedInput()
    ensures ReadsFreed([97, 98, 99, 100, 101, 120, 120, 120], 16, 5, [120], true, 0, 5)
  {
    var s: Text, w: Text := [97, 98, 99, 100, 101, 120, 120, 120], [120];
    assert s[5..6] == w && s[6..7] == w && s[7..8] == w;
    TakeMatch(s, 7, w, []);
    TakeMatch(s, 6, w, []);
    TakeMatch(s, 5, w, []);
    AtTheEnd(s, w, []);
  }

  lemma {:induction false} EveryByte(n: nat, p: nat, c: byte)
    requires p <= n
    ensures Matches(Fill(n, c), p, [c]) == n - p
    decreases n - p
  {
    if p < n {
      var s := Fill(n, c);
      assert s[p..p + 1] == [c];
      TakeMatch(s, p, [c], []);
      EveryByte(n, p + 1, c);
    } else {
      AtTheEnd(Fill(n, c), [c], []);
    }
  }

  /** The limit can be met: 2^27 times the same byte, each to be replaced by two. */
  lemma LimitReached(c: byte)
    ensures var s := Fill(MATCH_LIMIT, c);
            Matches(s, 0, [c]) == MATCH_LIMIT && |Replaced(s, 0, [c], [c, c])| + 1 < SIZE_LIMIT
  {
    EveryByte(MATCH_LIMIT, 0, c);
    ReplacedLength(Fill(MATCH_LIMIT, c), 0, [c], [c, c]);
  }

  /** `findreplaceengine` with `binstr`. `stale` says whether it read a block it had given back before;
      then what is put in for the matches is whatever that block holds. */
  method FindReplaceEngine(b: BString, find: View, repl: View, pos: int) returns (ret: int, ghost stale: bool)
    requires b.Valid() && b.Readable(find) && b.Readable(repl)
    requires find.len + 1 < SIZE_LIMIT && repl.len + 1 < SIZE_LIMIT
    requires pos >= 0 && find.len > 0 ==> |Replaced(b.Text(), pos, find.Text(), repl.Text())| + 1 < SIZE_LIMIT
    modifies b, b.data
    ensures b.Valid() && (b.data == old(b.data) || fresh(b.data)) && (ret == OK || ret == ERR)
    ensures ret == ERR <==>
      (|| pos < 0 || find.len == 0
       || (&& find.len < repl.len && pos <= old(b.slen)
           && Matches(old(b.Text()), pos, old(find.Text())) >= MATCH_LIMIT))
    ensures ret == ERR ==> b.Text() == old(b.Text())
    ensures stale <==>
      ReadsFreed(old(b.Text()), old(b.data.Length), pos, old(find.Text()), repl.block == old(b.data), repl.start, repl.len)
    ensures ret == OK && !stale ==> b.Text() == Replaced(old(b.Text()), pos, old(find.Text()), old(repl.Text()))
    ensures ret == OK ==>
      exists t :: |t| == repl.len && b.Text() == Replaced(old(b.Text()), pos, old(find.Text()), t)
  {
    stale := false;
    if pos < 0 || find.len <= 0 { return ERR, false; }
    if pos > b.slen - find.len {
      NoRoom(b.Text(), pos, find.Text(), repl.Text());
      return OK, false;
    }
    var auxf := Detached(b, find, pos);
    var auxr := Detached(b, repl, pos);
    assert auxf.Text() == old(find.Text()) && auxr.Text() == old(repl.Text());
    hide Replaced, ReplacedAll, Matches, Growth;
    ReplacedIs(b.Text(), pos, auxf.Text());
    if auxf.len == auxr.len {
      ReplaceEqual(b, auxf, auxr, pos);
      ret := OK;
    } else if auxf.len > auxr.len {
      ReplaceShorter(b, auxf, auxr, pos);
      ret := OK;
    } else {
      ret, stale := ReplaceLonger(b, auxf, auxr, pos);
    }
  }

  lemma ReplacedIs(s: Text, pos: nat, w: Text)
    requires |w| > 0 && pos <= |s|
    ensures forall t :: Replaced(s, pos, w, t) == ReplacedAll(s, pos, w, t)
  {
  }

  /** Finds the next match in the part of the text that is still as it was. */
  method NextMatch(b: BString, f: View, p: nat, ghost s: Text) returns (i: int)
    requires b.Valid() && f.Valid() && b.slen == |s| && p <= |s| && b.data[p..b.slen] == s[p..]
    ensures IsFirst(s, p, f.Text(), i)
  {
    i := BInStr(b.All(), p, f);
    assert b.Text()[p..] == s[p..];
    FirstBehind(s, b.Text(), p, f.Text(), i);
  }

  /** In place: find and replacement are of equal length. */
  method ReplaceEqual(b: BString, f: View, r: View, pos: nat)
    requires b.Valid() && Guarded(f, b.data, pos) && Guarded(r, b.data, pos)
    requires 0 < f.len == r.len && pos <= b.slen
    modifies b.data
    ensures b.Text() == ReplacedAll(old(b.Text()), pos, old(f.Text()), old(r.Text()))
  {
    hide ReplacedFrom, ReplacedAll, Pasted, IsFirst;
    ghost var s, w, t := b.Text(), f.Text(), r.Text();
    var p := pos;
    ShrunkInit(b.data[..], s, pos, w, t);
    var i := NextMatch(b, f, p, s);
    while i >= 0
      invariant f.Text() == w && r.Text() == t
      invariant Shrunk(b.data[..], s, pos, w, t, p, 0) && IsFirst(s, p, w, i)
      decreases |s| - p
    {
      ghost var cur := b.data[..];
      ShrinkStep(cur, s, pos, w, t, p, 0, i);
      PutText(b.data, i, pos, f, r);
      p := i + f.len;
      assert b.data[p..b.slen] == b.data[..][p..|s|];
      i := NextMatch(b, f, p, s);
    }
    NegativeIsError(s, p, w, i);
    ShrinkEnd(b.data[..], s, pos, w, t, p, 0);
    assert b.data[..][..|s|] == b.Text();
  }

  lemma ShrunkInit(cur: Text, s: Text, pos: nat, w: Text, t: Text)
    requires |w| > 0 && pos <= |s| <= |cur| && cur[..|s|] == s
    ensures Shrunk(cur, s, pos, w, t, pos, 0)
  {
    assert cur[pos..|s|] == cur[..|s|][pos..] && cur[..pos] == cur[..|s|][..pos];
  }

  lemma NegativeIsError(s: Text, p: nat, w: Text, i: int)
    requires IsFirst(s, p, w, i) && i < 0
    ensures i == ERR
  {
  }

  /** In place, left to right: the replacement is shorter, and acc bytes have been saved so far. */
  method ReplaceShorter(b: BString, f: View, r: View, pos: nat)
    requires b.Valid() && Guarded(f, b.data, pos) && Guarded(r, b.data, pos)
    requires r.len < f.len && pos <= b.slen
    modifies b`slen, b.data
    ensures b.Valid() && b.Text() == ReplacedAll(old(b.Text()), pos, old(f.Text()), old(r.Text()))
  {
    hide ReplacedFrom, ReplacedAll, Pasted, IsFirst, Shrunk;
    ghost var s, w, t := b.Text(), f.Text(), r.Text();
    var p, acc: nat := pos, 0;
    ShrunkInit(b.data[..], s, pos, w, t);
    assert b.data[p..b.slen] == s[p..];
    var i := NextMatch(b, f, p, s);
    while i >= 0
      invariant b.slen == |s| && f.Text() == w && r.Text() == t && p <= |s|
      invariant Shrunk(b.data[..], s, pos, w, t, p, acc) && IsFirst(s, p, w, i) && pos + acc <= p
      decreases |s| - p
    {
      ShrinkRound(b, f, r, pos, p, i, acc, s, w, t);
      acc := acc + (f.len - r.len);
      p := i + f.len;
      i := NextMatch(b, f, p, s);
    }
    NegativeIsError(s, p, w, i);
    CloseGap(b, f, r, pos, p, acc, s, w, t);
  }

  /** One match at i: the text before it moves down, and the replacement joins. */
  method ShrinkRound(b: BString, f: View, r: View, pos: nat, p: nat, i: nat, acc: nat, ghost s: Text, ghost w: Text, ghost t: Text)
    requires b.Valid() && b.slen == |s| && Guarded(f, b.data, pos) && Guarded(r, b.data, pos)
    requires r.len < f.len && f.Text() == w && r.Text() == t
    requires Shrunk(b.data[..], s, pos, w, t, p, acc) && IsFirst(s, p, w, i) && pos + acc <= p
    modifies b.data
    ensures f.Text() == w && r.Text() == t && p < i + f.len <= |s| && pos + acc + f.len - r.len <= i + f.len
    ensures Shrunk(b.data[..], s, pos, w, t, i + f.len, acc + f.len - r.len)
    ensures b.data[i + f.len..b.slen] == s[i + f.len..]
  {
    hide ReplacedFrom, ReplacedAll, Pasted, IsFirst, MatchAt, Matches, Shrunk, Lowered;
    ghost var cur := b.data[..];
    ShrunkIs(cur, s, pos, w, t, p, acc);
    ShrinkStep(cur, s, pos, w, t, p, acc, i);
    LoweredIs(cur, p, i, acc);
    if acc > 0 && i > p { MoveText(b.data, p - acc, p, i - p, pos, f, r); }
    assert b.data[..] == Lowered(cur, p, i, acc);
    PutText(b.data, i - acc, pos, f, r);
    ShrunkIs(b.data[..], s, pos, w, t, i + f.len, acc + f.len - r.len);
    assert b.data[i + f.len..b.slen] == b.data[..][i + f.len..|s|];
  }

  /** The rest of the text moves down, and the text is cut. */
  method CloseGap(b: BString, f: View, r: View, pos: nat, p: nat, acc: nat, ghost s: Text, ghost w: Text, ghost t: Text)
    requires b.Valid() && b.slen == |s| && Guarded(f, b.data, pos) && Guarded(r, b.data, pos)
    requires Shrunk(b.data[..], s, pos, w, t, p, acc) && IsFirst(s, p, w, ERR) && pos <= p - acc
    modifies b`slen, b.data
    ensures b.Valid() && b.Text() == ReplacedAll(s, pos, w, t)
  {
    hide ReplacedFrom, ReplacedAll, Pasted, IsFirst;
    ghost var cur := b.data[..];
    ShrinkEnd(cur, s, pos, w, t, p, acc);
    if acc > 0 {
      if b.slen > p { MoveText(b.data, p - acc, p, b.slen - p, pos, f, r); }
      assert b.data[..] == Lowered(cur, p, |s|, acc);
      b.slen := b.slen - acc;
      b.data[b.slen] := 0;
      assert b.Text() == Lowered(cur, p, |s|, acc)[..b.slen];
    } else {
      assert b.Text() == b.data[..][..|s|];
    }
  }

  /** The byte size of an index of mlen entries, as an int. */
  function IndexSize(mlen: nat): int {
    Signed(ENTRY_BYTES * mlen % (2 * INT_LIMIT))
  }

  /** The index array holds the positions found so far and has room for one more entry at the end. */
  ghost predicate Indexed(d: array<int>, n: nat, mlen: nat, s: Text, pos: nat, w: Text, p: nat)
    reads d
  {
    && Bits.IsPow2(mlen) && 32 <= mlen <= MATCH_LIMIT && mlen <= d.Length && n < mlen
    && Found(d[..n], s, pos, w, p)
  }

  /** First all matches are found and their positions recorded in a growing index. */
  method Collect(b: BString, f: View, pos: nat) returns (ok: bool, d: array<int>, n: nat)
    requires b.Valid() && f.Valid() && f.len > 0 && pos <= b.slen
    ensures fresh(d) && (ok <==> Matches(b.Text(), pos, f.Text()) < MATCH_LIMIT)
    ensures ok ==> n < d.Length && n == Matches(b.Text(), pos, f.Text())
    ensures ok ==> exists p :: Found(d[..n], b.Text(), pos, f.Text(), p) && NoneIn(b.Text(), p, |b.Text()|, f.Text())
  {
    ghost var s, w := b.Text(), f.Text();
    hide *;
    var mlen, p := 32, pos;
    d, n := new int[33], 0;
    FirstIndex(d, s, pos, w);
    var i := NextMatch(b, f, p, s);
    while i >= 0
      invariant fresh(d) && Indexed(d, n, mlen, s, pos, w, p) && p <= |s| && IsFirst(s, p, w, i)
      decreases |s| - p
    {
      FirstIs(s, p, w, i);
      ok, d, n, mlen := Record(d, n, mlen, i, s, pos, w, p);
      if !ok { return; }
      p := i + f.len;
      i := NextMatch(b, f, p, s);
    }
    NegativeIsError(s, p, w, i);
    FirstIs(s, p, w, ERR);
    FoundCount(d[..n], s, pos, w, p);
    SkipTo(s, p, |s|, w, []);
    AtTheEnd(s, w, []);
    ok := true;
  }

  /** Records one more match, growing the index when it is full. */
  method Record(d: array<int>, n: nat, mlen: nat, i: nat, ghost s: Text, ghost pos: nat, ghost w: Text, ghost p: nat)
    returns (ok: bool, d': array<int>, n': nat, mlen': nat)
    requires Indexed(d, n, mlen, s, pos, w, p) && p <= |s| && IsFirst(s, p, w, i) && i + |w| <= |s|
    modifies d
    ensures d' == d || fresh(d')
    ensures ok ==> Indexed(d', n', mlen', s, pos, w, i + |w|)
    ensures !ok ==> pos <= |s| && |w| > 0 && Matches(s, pos, w) >= MATCH_LIMIT
  {
    hide IsFirst, Found, Matches, IndexSize, Bits.IsPow2;
    FoundMore(d[..n], s, pos, w, p, i);
    ghost var found := d[..n] + [i];
    d', n', mlen' := d, n, mlen;
    if n >= mlen - 1 {
      mlen' := mlen + mlen;
      Doubled(mlen);
      if IndexSize(mlen') < mlen' {
        FoundCount(found, s, pos, w, i + |w|);
        FoundBounds(d[..n], s, pos, w, p);
        return false, d', n', mlen';
      }
      d' := Enlarged(d, n, mlen');
    }
    d'[n] := i;
    n' := n + 1;
    assert d'[..n'] == found;
    ok := true;
  }

  lemma FoundBounds(d: seq<int>, s: Text, pos: nat, w: Text, p: nat)
    requires Found(d, s, pos, w, p)
    ensures pos <= p <= |s| && |w| > 0
  {
  }

  method Enlarged(d: array<int>, n: nat, mlen: nat) returns (t: array<int>)
    requires n <= d.Length && n <= mlen
    ensures fresh(t) && t.Length == mlen && t[..n] == d[..n]
  {
    t := new int[mlen];
    forall i | 0 <= i < n {
      t[i] := d[i];
    }
  }

  lemma FirstIndex(d: array<int>, s: Text, pos: nat, w: Text)
    requires d.Length == 33 && pos <= |s| && |w| > 0
    ensures Indexed(d, 0, 32, s, pos, w, pos)
  {
    assert d[..0] == [];
    Bits.Log2Pow2(5);
    assert Bits.Pow2(4) == 16;
  }

  lemma Pow27()
    ensures Bits.Pow2(27) == MATCH_LIMIT
  {
    Bits.Pow2Values();
  }

  lemma DoubledSize(m: nat)
    requires 32 <= m <= MATCH_LIMIT
    ensures IndexSize(2 * m) < 2 * m <==> m == MATCH_LIMIT
  {
  }

  /** Doubling fails exactly at the limit. */
  lemma Doubled(m: nat)
    requires Bits.IsPow2(m) && 32 <= m <= MATCH_LIMIT
    ensures IndexSize(2 * m) < 2 * m <==> m == MATCH_LIMIT
    ensures m < MATCH_LIMIT ==> Bits.IsPow2(2 * m) && 2 * m <= MATCH_LIMIT
  {
    var p := Bits.Log2(m);
    Pow27();
    hide Bits.Log2, IndexSize;
    DoubledSize(m);
    if m < MATCH_LIMIT {
      Bits.Pow2Reflects(p, 27);
      Bits.Pow2Mono(p + 1, 27);
      Bits.Log2Pow2(p + 1);
    }
  }

  /** The replacement is longer: after the matches are known the buffer grows once, and the text is
      spread out from right to left. */
  method ReplaceLonger(b: BString, f: View, r: View, pos: nat) returns (ret: int, ghost stale: bool)
    requires b.Valid() && Guarded(f, b.data, pos) && Guarded(r, b.data, pos)
    requires 0 < f.len < r.len && pos <= b.slen
    requires |ReplacedAll(b.Text(), pos, f.Text(), r.Text())| + 1 < SIZE_LIMIT
    modifies b, b.data
    ensures b.Valid() && (b.data == old(b.data) || fresh(b.data)) && (ret == OK || ret == ERR)
    ensures ret == ERR <==> Matches(old(b.Text()), pos, old(f.Text())) >= MATCH_LIMIT
    ensures ret == ERR ==> b.Text() == old(b.Text())
    ensures stale <==>
      ReadsFreed(old(b.Text()), old(b.data.Length), pos, old(f.Text()), r.block == old(b.data), r.start, r.len)
    ensures ret == OK && !stale ==> b.Text() == ReplacedAll(old(b.Text()), pos, old(f.Text()), old(r.Text()))
    ensures ret == OK ==> exists t :: |t| == r.len && b.Text() == ReplacedAll(old(b.Text()), pos, old(f.Text()), t)
  {
    hide ReplacedFrom, ReplacedAll, Matches, Found, NoneIn, Growth, IsFirst;
    ghost var s, w, t := b.Text(), f.Text(), r.Text();
    var ok, d, n := Collect(b, f, pos);
    if !ok { return ERR, false; }
    ghost var p :| Found(d[..n], s, pos, w, p) && NoneIn(s, p, |s|, w);
    GrowthLength(s, pos, w, t);
    var acc := Growth(n, r.len - f.len);
    ghost var found := d[..n];
    d[n] := b.slen;
    assert d[..n] == found;
    assert b.Text() == s && r.Text() == t;
    ghost var block := b.data;
    ret := b.Balloc(b.slen + acc + 1);
    SnapLeavesRoom(|s| + acc + 1);
    assert r.block != block || b.data == block ==> r.Text() == t;
    ghost var put := r.Text();
    ghost var read := SpreadOut(b, f.len, r, pos, d, n, acc, w, p);
    assert b.Text() == ReplacedAll(s, pos, w, put) && |put| == r.len;
    stale := b.data != block && block in read;
    if n == 0 { NothingToPut(s, pos, w, put, t); }
  }

  /** Without a match it does not matter what would be put in. */
  lemma {:induction false} NothingToPutFrom(s: Text, p: nat, w: Text, t: Text, u: Text)
    requires |w| > 0 && p <= |s| && Matches(s, p, w) == 0
    ensures ReplacedFrom(s, p, w, t) == ReplacedFrom(s, p, w, u)
    decreases |s| - p
  {
    if p + |w| <= |s| { NothingToPutFrom(s, p + 1, w, t, u); }
  }

  lemma NothingToPut(s: Text, pos: nat, w: Text, t: Text, u: Text)
    requires |w| > 0 && pos <= |s| && Matches(s, pos, w) == 0
    ensures ReplacedAll(s, pos, w, t) == ReplacedAll(s, pos, w, u)
  {
    NothingToPutFrom(s, pos, w, t, u);
  }

  /** What i longer replacements add. */
  function Growth(i: nat, grow: nat): nat {
    i * grow
  }

  lemma GrowthStep(i: nat, grow: nat)
    ensures Growth(0, grow) == 0 && Growth(i + 1, grow) == Growth(i, grow) + grow
  {
  }

  lemma GrowthLength(s: Text, pos: nat, w: Text, t: Text)
    requires pos <= |s| && 0 < |w| <= |t|
    ensures |ReplacedAll(s, pos, w, t)| == |s| + Growth(Matches(s, pos, w), |t| - |w|)
  {
    ReplacedLength(s, pos, w, t);
  }

  /** The loop from right to left; `read` are the blocks it reads from. */
  method SpreadOut(b: BString, flen: nat, r: View, pos: nat, d: array<int>, n: nat, acc: nat, ghost w: Text, ghost p: nat)
    returns (ghost read: set<array<byte>>)
    requires b.Valid() && Guarded(r, b.data, pos) && |w| == flen && 0 < flen < r.len
    requires n < d.Length && d[n] == b.slen && d as object != b.data as object && acc == Growth(n, r.len - flen)
    requires b.slen + acc < b.data.Length && pos <= b.slen
    requires Found(d[..n], b.Text(), pos, w, p) && NoneIn(b.Text(), p, b.slen, w)
    modifies b`slen, b.data
    ensures b.Valid() && b.Text() == ReplacedAll(old(b.Text()), pos, w, old(r.Text()))
    ensures read == if n == 0 then {} else {b.data, r.block}
  {
    hide ReplacedFrom, ReplacedAll, Found, NoneIn, Growth, Grown, Start;
    ghost var s, t, ds := b.Text(), r.Text(), d[..n];
    Lengthen(b, acc);
    assert r.Text() == t;
    var i, shift := n, acc;
    read := {};
    GrownInit(b.Text(), s, ds, w, t, acc);
    while i > 0
      invariant 0 <= i <= n && d[..n] == ds && d[n] == |s| && b.slen == |s| + acc
      invariant shift == Growth(i, r.len - flen) && r.Text() == t
      invariant Grown(b.Text(), s, ds, w, t, i, shift)
      invariant read == if i == n then {} else {b.data, r.block}
    {
      i := i - 1;
      GrowthStep(i, r.len - flen);
      NextStart(d, n, ds, s, i);
      ghost var more := SpreadOne(b, flen, r, pos, d[i], d[i + 1], i, shift, s, ds, w, p);
      read := read + more;
      shift := shift - (r.len - flen);
    }
    GrowthStep(0, r.len - flen);
    GrowEnd(b.Text(), s, ds, pos, w, t, p);
    Terminate(b);
  }

  lemma NextStart(d: array<int>, n: nat, ds: seq<int>, s: Text, i: nat)
    requires n < d.Length && d[..n] == ds && d[n] == |s| && i < n
    ensures d[i] == ds[i] && d[i + 1] == Start(ds, s, i + 1)
  {
    assert d[i] == d[..n][i];
    if i + 1 < n { assert d[i + 1] == d[..n][i + 1]; }
  }

  /** The string with acc bytes more, which hold anything yet. */
  method Lengthen(b: BString, acc: nat)
    requires b.Valid() && b.slen + acc < b.data.Length
    modifies b`slen
    ensures b.slen == old(b.slen) + acc && b.Valid() && b.Text()[..old(b.slen)] == old(b.Text())
  {
    b.slen := b.slen + acc;
  }

  method Terminate(b: BString)
    requires b.Valid()
    modifies b.data
    ensures b.Valid() && b.Text() == old(b.Text())
  {
    b.data[b.slen] := 0;
  }

  /** Moves the text between match i and the next one and puts the replacement before it. */
  method SpreadOne(b: BString, flen: nat, r: View, pos: nat, at: int, next: int, ghost i: nat, shift: nat,
                   ghost s: Text, ghost d: seq<int>, ghost w: Text, ghost p: nat)
    returns (ghost read: set<array<byte>>)
    requires b.Valid() && Guarded(r, b.data, pos) && |w| == flen && 0 < flen < r.len
    requires Found(d, s, pos, w, p) && NoneIn(s, p, |s|, w)
    requires i < |d| && at == d[i] && next == Start(d, s, i + 1) && shift >= r.len - flen
    requires Grown(b.Text(), s, d, w, r.Text(), i + 1, shift)
    modifies b.data
    ensures Grown(b.Text(), s, d, w, old(r.Text()), i, shift - (r.len - flen))
    ensures r.Text() == old(r.Text()) && read == {b.data, r.block}
  {
    hide ReplacedFrom, Found, Pasted, NoneIn, Grown;
    ghost var cur, block, t := b.Text(), b.data[..], r.Text();
    GrowStep(cur, s, d, pos, w, t, p, i, shift);
    var q := at + flen;
    assert cur[q..next] == block[q..q + (next - q)];
    MoveText(b.data, q + shift, q, next - q, pos, r, r);
    ghost var one := b.data[..];
    PutText(b.data, q + shift - r.len, pos, r, r);
    TextPasted(block, b.slen, q + shift, cur[q..next]);
    TextPasted(one, b.slen, q + shift - r.len, t);
    assert b.Text() == b.data[..][..b.slen];
    read := {b.data, r.block};
  }

  lemma GrownInit(cur: Text, s: Text, d: seq<int>, w: Text, t: Text, acc: nat)
    requires |w| > 0 && |cur| == |s| + acc && cur[..|s|] == s
    ensures Grown(cur, s, d, w, t, |d|, acc)
  {
    AtTheEnd(s, w, t);
  }

  lemma TextPasted(block: Text, n: nat, d: nat, t: Text)
    requires d + |t| <= n <= |block|
    ensures Pasted(block, d, t)[..n] == Pasted(block[..n], d, t)
  {
  }
}

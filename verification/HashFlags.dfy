/** The packed bucket flags of khash: sixteen buckets to a 32-bit word, two bits to a bucket. The
    upper bit of a pair says "empty", the lower one says "deleted". */
module HashFlags {

  datatype Flag = Flag(empty: bool, del: bool)

  const EMPTY := Flag(true, false)
  const LIVE := Flag(false, false)
  const DELETED := Flag(false, true)

  /** `i & 0xf` as a word. */
  function Lane(i: nat): (s: bv32)
    ensures s < 16
  {
    var r := i % 16;
    if r == 0 then 0 else if r == 1 then 1 else if r == 2 then 2 else if r == 3 then 3
    else if r == 4 then 4 else if r == 5 then 5 else if r == 6 then 6 else if r == 7 then 7
    else if r == 8 then 8 else if r == 9 then 9 else if r == 10 then 10 else if r == 11 then 11
    else if r == 12 then 12 else if r == 13 then 13 else if r == 14 then 14 else 15
  }

  lemma LanesDiffer(i: nat, j: nat)
    requires i / 16 == j / 16 && i != j
    ensures Lane(i) != Lane(j)
  {
  }

  predicate EmptyBit(w: bv32, s: bv32)
    requires s < 16
  {
    (w >> (s << 1)) & 2 != 0
  }

  predicate DelBit(w: bv32, s: bv32)
    requires s < 16
  {
    (w >> (s << 1)) & 1 != 0
  }

  /** `__ac_iseither` tests both bits at once. */
  predicate EitherBit(w: bv32, s: bv32)
    requires s < 16
    ensures EitherBit(w, s) <==> EmptyBit(w, s) || DelBit(w, s)
  {
    (w >> (s << 1)) & 3 != 0
  }

  /** `__ac_set_isdel_true` */
  function DelSet(w: bv32, s: bv32): bv32
    requires s < 16
  {
    w | (1 << (s << 1))
  }

  /** `__ac_set_isempty_false` */
  function EmptyCleared(w: bv32, s: bv32): bv32
    requires s < 16
  {
    w & !(2 << (s << 1))
  }

  /** `__ac_set_isboth_false` */
  function BothCleared(w: bv32, s: bv32): bv32
    requires s < 16
  {
    w & !(3 << (s << 1))
  }

  lemma DelSetLane(w: bv32, s: bv32, r: bv32)
    requires s < 16 && r < 16
    ensures EmptyBit(DelSet(w, s), r) == EmptyBit(w, r)
    ensures DelBit(DelSet(w, s), r) == (r == s || DelBit(w, r))
  {
  }

  lemma EmptyClearedLane(w: bv32, s: bv32, r: bv32)
    requires s < 16 && r < 16
    ensures EmptyBit(EmptyCleared(w, s), r) == (r != s && EmptyBit(w, r))
    ensures DelBit(EmptyCleared(w, s), r) == DelBit(w, r)
  {
  }

  lemma BothClearedLane(w: bv32, s: bv32, r: bv32)
    requires s < 16 && r < 16
    ensures EmptyBit(BothCleared(w, s), r) == (r != s && EmptyBit(w, r))
    ensures DelBit(BothCleared(w, s), r) == (r != s && DelBit(w, r))
  {
  }

  lemma FreshWord(s: bv32)
    requires s < 16
    ensures EmptyBit(0xaaaa_aaaa, s) && !DelBit(0xaaaa_aaaa, s)
  {
  }

  /** The flag of bucket i. */
  function FlagAt(words: seq<bv32>, i: nat): Flag
    requires i < 16 * |words|
  {
    Flag(EmptyBit(words[i / 16], Lane(i)), DelBit(words[i / 16], Lane(i)))
  }

  /** The words hold the flags fl. */
  ghost predicate Packs(words: seq<bv32>, fl: seq<Flag>) {
    && |fl| <= 16 * |words|
    && forall i {:trigger FlagAt(words, i)} :: 0 <= i < |fl| ==> FlagAt(words, i) == fl[i]
  }

  /** `__ac_fsize` */
  function WordsFor(n: nat): (m: nat)
    ensures n % 16 == 0 || n < 16 ==> n <= 16 * m
  {
    if n < 16 then 1 else n / 16
  }

  method IsEmpty(flags: array<bv32>, i: nat, ghost fl: seq<Flag>) returns (b: bool)
    requires Packs(flags[..], fl) && i < |fl|
    ensures b == fl[i].empty
  {
    b := EmptyBit(flags[i / 16], Lane(i));
    assert FlagAt(flags[..], i).empty == b;
  }

  method IsDel(flags: array<bv32>, i: nat, ghost fl: seq<Flag>) returns (b: bool)
    requires Packs(flags[..], fl) && i < |fl|
    ensures b == fl[i].del
  {
    b := DelBit(flags[i / 16], Lane(i));
    assert FlagAt(flags[..], i).del == b;
  }

  method IsEither(flags: array<bv32>, i: nat, ghost fl: seq<Flag>) returns (b: bool)
    requires Packs(flags[..], fl) && i < |fl|
    ensures b == (fl[i] != LIVE)
  {
    b := EitherBit(flags[i / 16], Lane(i));
    assert (FlagAt(flags[..], i) != LIVE) == b;
  }

  lemma DelSetAt(words: seq<bv32>, i: nat, j: nat)
    requires i < 16 * |words| && j < 16 * |words|
    ensures FlagAt(words[i / 16 := DelSet(words[i / 16], Lane(i))], j) ==
            if j == i then FlagAt(words, i).(del := true) else FlagAt(words, j)
  {
    if j / 16 == i / 16 {
      DelSetLane(words[i / 16], Lane(i), Lane(j));
      if j != i { LanesDiffer(i, j); }
    }
  }

  lemma DelSetPacks(words: seq<bv32>, i: nat, fl: seq<Flag>)
    requires Packs(words, fl) && i < |fl|
    ensures Packs(words[i / 16 := DelSet(words[i / 16], Lane(i))], fl[i := fl[i].(del := true)])
  {
    var words', fl' := words[i / 16 := DelSet(words[i / 16], Lane(i))], fl[i := fl[i].(del := true)];
    forall j | 0 <= j < |fl|
      ensures FlagAt(words', j) == fl'[j]
    {
      DelSetAt(words, i, j);
      assert FlagAt(words, j) == fl[j];
    }
  }

  method SetDel(flags: array<bv32>, i: nat, ghost fl: seq<Flag>)
    requires Packs(flags[..], fl) && i < |fl|
    modifies flags
    ensures Packs(flags[..], fl[i := fl[i].(del := true)])
  {
    DelSetPacks(flags[..], i, fl);
    flags[i / 16] := DelSet(flags[i / 16], Lane(i));
    assert flags[..] == old(flags[..])[i / 16 := DelSet(old(flags[..])[i / 16], Lane(i))];
  }

  lemma EmptyClearedAt(words: seq<bv32>, i: nat, j: nat)
    requires i < 16 * |words| && j < 16 * |words|
    ensures FlagAt(words[i / 16 := EmptyCleared(words[i / 16], Lane(i))], j) ==
            if j == i then FlagAt(words, i).(empty := false) else FlagAt(words, j)
  {
    if j / 16 == i / 16 {
      EmptyClearedLane(words[i / 16], Lane(i), Lane(j));
      if j != i { LanesDiffer(i, j); }
    }
  }

  lemma EmptyClearedPacks(words: seq<bv32>, i: nat, fl: seq<Flag>)
    requires Packs(words, fl) && i < |fl|
    ensures Packs(words[i / 16 := EmptyCleared(words[i / 16], Lane(i))], fl[i := fl[i].(empty := false)])
  {
    var words', fl' := words[i / 16 := EmptyCleared(words[i / 16], Lane(i))], fl[i := fl[i].(empty := false)];
    forall j | 0 <= j < |fl|
      ensures FlagAt(words', j) == fl'[j]
    {
      EmptyClearedAt(words, i, j);
      assert FlagAt(words, j) == fl[j];
    }
  }

  method ClearEmpty(flags: array<bv32>, i: nat, ghost fl: seq<Flag>)
    requires Packs(flags[..], fl) && i < |fl|
    modifies flags
    ensures Packs(flags[..], fl[i := fl[i].(empty := false)])
  {
    EmptyClearedPacks(flags[..], i, fl);
    flags[i / 16] := EmptyCleared(flags[i / 16], Lane(i));
    assert flags[..] == old(flags[..])[i / 16 := EmptyCleared(old(flags[..])[i / 16], Lane(i))];
  }

  lemma BothClearedAt(words: seq<bv32>, i: nat, j: nat)
    requires i < 16 * |words| && j < 16 * |words|
    ensures FlagAt(words[i / 16 := BothCleared(words[i / 16], Lane(i))], j) ==
            if j == i then LIVE else FlagAt(words, j)
  {
    if j / 16 == i / 16 {
      BothClearedLane(words[i / 16], Lane(i), Lane(j));
      if j != i { LanesDiffer(i, j); }
    }
  }

  lemma BothClearedPacks(words: seq<bv32>, i: nat, fl: seq<Flag>)
    requires Packs(words, fl) && i < |fl|
    ensures Packs(words[i / 16 := BothCleared(words[i / 16], Lane(i))], fl[i := LIVE])
  {
    var words', fl' := words[i / 16 := BothCleared(words[i / 16], Lane(i))], fl[i := LIVE];
    forall j | 0 <= j < |fl|
      ensures FlagAt(words', j) == fl'[j]
    {
      BothClearedAt(words, i, j);
      assert FlagAt(words, j) == fl[j];
    }
  }

  method ClearBoth(flags: array<bv32>, i: nat, ghost fl: seq<Flag>)
    requires Packs(flags[..], fl) && i < |fl|
    modifies flags
    ensures Packs(flags[..], fl[i := LIVE])
  {
    BothClearedPacks(flags[..], i, fl);
    flags[i / 16] := BothCleared(flags[i / 16], Lane(i));
    assert flags[..] == old(flags[..])[i / 16 := BothCleared(old(flags[..])[i / 16], Lane(i))];
  }

  /** `memset(flags, 0xaa, ...)`: every bucket empty. */
  method FillEmpty(flags: array<bv32>, n: nat) returns (ghost fl: seq<Flag>)
    requires n <= 16 * flags.Length
    modifies flags
    ensures Packs(flags[..], fl) && |fl| == n
    ensures forall i :: 0 <= i < n ==> fl[i] == EMPTY
  {
    var j := 0;
    while j < flags.Length
      invariant j <= flags.Length
      invariant forall i :: 0 <= i < j ==> flags[i] == 0xaaaa_aaaa
    {
      flags[j] := 0xaaaa_aaaa;
      j := j + 1;
    }
    fl := seq(n, _ => EMPTY);
    forall i | 0 <= i < n
      ensures FlagAt(flags[..], i) == fl[i]
    {
      FreshWord(Lane(i));
    }
  }
}

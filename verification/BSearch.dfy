/** Forward search: a greedy subsequence scan, two characters at a time, that restarts as late as it
    can. */
module BSearch {
  import opened BString

  predicate MatchAt(s: Text, p: int, w: Text) {
    0 <= p <= |s| - |w| && s[p..p + |w|] == w
  }

  /** r is the least match from pos on, or ERR when there is none. */
  ghost predicate IsFirst(s: Text, pos: int, w: Text, r: int) {
    if r == ERR then pos < 0 || forall p :: p >= pos ==> !MatchAt(s, p, w)
    else 0 <= pos <= r && MatchAt(s, r, w) && forall p :: pos <= p < r ==> !MatchAt(s, p, w)
  }

  /** Every match from pos on has its character j at position i or later. */
  ghost predicate NotBefore(s: Text, pos: int, w: Text, i: int, j: int) {
    forall p :: p >= pos && MatchAt(s, p, w) ==> p + j >= i
  }

  lemma MatchChar(s: Text, p: int, w: Text, j: nat)
    requires MatchAt(s, p, w) && j < |w|
    ensures s[p + j] == w[j]
  {
    assert s[p + j] == s[p..p + |w|][j];
  }

  lemma Mismatch(s: Text, pos: int, w: Text, i: nat, j: nat)
    requires NotBefore(s, pos, w, i, j) && i < |s| && j < |w| && s[i] != w[j]
    ensures NotBefore(s, pos, w, i + 1, j)
  {
    forall p | p >= pos && MatchAt(s, p, w)
      ensures p + j >= i + 1
    {
      MatchChar(s, p, w, j);
    }
  }

  /** At the last character only a match that needs just this character is left. */
  lemma AtTheEnd(s: Text, pos: int, w: Text, i: int, j: nat)
    requires NotBefore(s, pos, w, i, j) && j < |w| && |s| - 1 <= i
    requires i == |s| - 1 && |w| == j + 1 ==> i >= 0 && s[i] != w[j]
    ensures forall p :: p >= pos ==> !MatchAt(s, p, w)
  {
    forall p | p >= pos
      ensures !MatchAt(s, p, w)
    {
      if MatchAt(s, p, w) && p + j == i < |s| {
        MatchChar(s, p, w, j);
      }
    }
  }

  /** The characters w[..j] were found in this order from position ii on, up to position i. */
  ghost predicate Traced(s: Text, w: Text, ii: int, i: nat, j: nat) {
    j > 0 ==> 0 <= ii && ii + j <= i <= |s| && j <= |w| && (i == ii + j ==> s[ii..i] == w[..j])
  }

  lemma TraceStep(s: Text, w: Text, ii: int, i: nat, j: nat)
    requires Traced(s, w, ii, i, j) && i < |s| && j < |w| && s[i] == w[j]
    ensures Traced(s, w, if j == 0 then i else ii, i + 1, j + 1)
  {
    var k := if j == 0 then i else ii;
    if i == k + j {
      assert s[k..i + 1] == s[k..i] + [s[i]];
      assert w[..j + 1] == w[..j] + [w[j]];
    }
  }

  lemma TraceSkip(s: Text, w: Text, ii: int, i: nat, j: nat, i': nat)
    requires Traced(s, w, ii, i, j) && i < i' <= |s|
    ensures Traced(s, w, ii, i', j)
  {
  }

  /** `binstr` */
  method BInStr(b1: View, pos: int, b2: View) returns (r: int)
    requires b1.Valid() && b2.Valid()
    ensures IsFirst(b1.Text(), pos, b2.Text(), r)
  {
    if b1.len == pos {
      r := if b2.len == 0 then pos else ERR;
      return;
    }
    if b1.len < pos || pos < 0 { return ERR; }
    if b2.len == 0 { return pos; }
    if b1.len - b2.len + 1 <= pos { return ERR; }
    // the same text may not be scanned at all
    if b1.block == b2.block && b1.start == b2.start && pos == 0 {
      assert b1.Text()[..b2.len] == b2.Text();
      return 0;
    }
    if b2.len == 1 {
      r := ScanChar(b1, pos, b2);
    } else {
      r := Scan(b1, pos, b2);
    }
  }

  /** The search for a single character. */
  method ScanChar(b1: View, pos: nat, b2: View) returns (r: int)
    requires b1.Valid() && b2.Valid() && b2.len == 1 && pos < b1.len
    ensures IsFirst(b1.Text(), pos, b2.Text(), r)
  {
    ghost var s, w := b1.Text(), b2.Text();
    var c0 := b2.block[b2.start];
    assert w == [c0];
    var i := pos;
    while i < b1.len
      invariant pos <= i <= b1.len
      invariant forall p :: pos <= p < i ==> s[p] != c0
    {
      if b1.block[b1.start + i] == c0 {
        ViewAt(b1, i);
        assert s[i..i + 1] == [s[i]];
        forall p | pos <= p < i ensures !MatchAt(s, p, w) {
          assert s[p..p + 1][0] == s[p];
        }
        return i;
      }
      i := i + 1;
    }
    forall p | pos <= p ensures !MatchAt(s, p, w) {
      if p < |s| { assert s[p..p + 1][0] == s[p]; }
    }
    return ERR;
  }

  /** The scan. `base` is where it last started over; it starts over strictly later each time. */
  method Scan(b1: View, pos: nat, b2: View) returns (r: int)
    requires b1.Valid() && b2.Valid() && b2.len >= 2 && pos + b2.len <= b1.len
    ensures IsFirst(b1.Text(), pos, b2.Text(), r)
  {
    hide MatchAt, Traced, NotBefore;
    ghost var s, w := b1.Text(), b2.Text();
    var d0, d1, ll := b2.start, b1.start, b2.len;
    var lf := b1.len - 1;
    var i, j, ii := pos, 0, -1;
    ghost var base := i;
    StartOver(s, pos, w, i, ii);
    while true
      invariant pos <= base <= i <= b1.len && 0 <= j < ll
      invariant j > 0 ==> base <= ii && ii + j <= i
      invariant NotBefore(s, pos, w, i, j) && Traced(s, w, ii, i, j)
      decreases b1.len - base, b1.len - i
    {
      if i < lf {
        if b2.block[d0 + j] != b1.block[d1 + i] {
          Mismatch(s, pos, w, i, j);
          if b2.block[d0 + j] != b1.block[d1 + i + 1] {
            Mismatch(s, pos, w, i + 1, j);
            TraceSkip(s, w, ii, i, j, i + 2);
            i := i + 2;
            continue;
          }
          TraceSkip(s, w, ii, i, j, i + 1);
          i := i + 1;
        }
        TraceStep(s, w, ii, i, j);
        MatchStep(s, pos, w, i, j);
        if j == 0 { ii := i; }
        j := j + 1;
        i := i + 1;
        if j < ll { continue; }
        if i == ii + j {
          FullTrace(s, pos, w, ii, i, j);
          return ii;
        }
      } else {
        if !(i == lf && ll == j + 1 && b2.block[d0 + j] == b1.block[d1 + i]) {
          AtTheEnd(s, pos, w, i, j);
          return ERR;
        }
        if i == ii + j {
          TraceStep(s, w, ii, i, j);
          MatchStep(s, pos, w, i, j);
          FullTrace(s, pos, w, ii, i + 1, j + 1);
          return ii;
        }
      }
      Restart(s, pos, w, ii, i, j);
      i := i - j;
      j := 0;
      base := i;
    }
  }

  lemma StartOver(s: Text, pos: nat, w: Text, i: nat, ii: int)
    requires i == pos
    ensures NotBefore(s, pos, w, i, 0) && Traced(s, w, ii, i, 0)
  {
  }

  lemma MatchStep(s: Text, pos: nat, w: Text, i: nat, j: nat)
    requires NotBefore(s, pos, w, i, j)
    ensures NotBefore(s, pos, w, i + 1, j + 1)
  {
  }

  lemma Restart(s: Text, pos: nat, w: Text, ii: int, i: nat, j: nat)
    requires NotBefore(s, pos, w, i, j) && j <= i
    ensures NotBefore(s, pos, w, i - j, 0) && Traced(s, w, ii, i - j, 0)
  {
  }

  /** A trace without a gap over all of w is the first match. */
  lemma FullTrace(s: Text, pos: nat, w: Text, ii: int, i: nat, j: nat)
    requires Traced(s, w, ii, i, j) && NotBefore(s, pos, w, i, j) && 0 < j == |w| && i == ii + j && pos <= ii
    ensures IsFirst(s, pos, w, ii)
  {
    assert w[..j] == w;
  }
}

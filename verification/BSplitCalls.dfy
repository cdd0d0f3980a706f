/** The splitters of bstrlib with a callback of the caller's, a function of its own state and of the place
    of the piece: it is called for one piece after the other, and ends the split with a negative value. */
module BSplitCalls {
  import opened BString
  import opened BSplit

  datatype Span = Span(ofs: nat, len: nat)

  function Cut(s: Text, sp: Span): Text
    requires sp.ofs + sp.len <= |s|
  {
    s[sp.ofs..sp.ofs + sp.len]
  }

  /** The spans cut these pieces out of s. */
  ghost predicate Cuts(s: Text, spans: seq<Span>, ps: seq<Text>) {
    |spans| == |ps| && forall k :: 0 <= k < |ps| ==> spans[k].ofs + spans[k].len <= |s| && ps[k] == Cut(s, spans[k])
  }

  lemma CutsFirst(s: Text, sp: Span, spans: seq<Span>, ps: seq<Text>)
    requires Cuts(s, spans, ps) && sp.ofs + sp.len <= |s|
    ensures Cuts(s, [sp] + spans, [Cut(s, sp)] + ps)
  {
    hide Cut;
  }

  /** The places of the pieces at a character, of single characters, and at a longer separator. */
  function CharSpans(s: Text, p: nat, c: byte): seq<Span>
    requires p <= |s|
    decreases |s| - p
  {
    var i := Until(s, p, c);
    [Span(p, i - p)] + if i == |s| then [] else CharSpans(s, i + 1, c)
  }

  function SingleSpans(s: Text, p: nat): seq<Span>
    requires p <= |s|
    decreases |s| - p
  {
    if p == |s| then [] else [Span(p, 1)] + SingleSpans(s, p + 1)
  }

  function StrSpans(s: Text, p: nat, i: nat, sep: Text): seq<Span>
    requires p <= |s| && p <= i && |sep| > 0
    decreases |s| + 1 - i
  {
    if i + |sep| > |s| then [Span(p, |s| - p)]
    else if Match(s, i, sep) then [Span(p, i - p)] + StrSpans(s, i + |sep|, i + |sep| + 1, sep)
    else StrSpans(s, p, i + 1, sep)
  }

  function SpansAt(s: Text, pos: nat, sep: Text): seq<Span>
    requires pos <= |s|
  {
    if sep == [] then SingleSpans(s, pos)
    else if |sep| == 1 then CharSpans(s, pos, sep[0])
    else StrSpans(s, pos, pos, sep)
  }

  lemma {:induction false} CharSpansCut(s: Text, p: nat, c: byte)
    requires p <= |s|
    ensures Cuts(s, CharSpans(s, p, c), SplitFrom(s, p, c))
    decreases |s| - p
  {
    hide *;
    var i := Until(s, p, c);
    PieceFirst(s, p, c);
    CharSpansFirst(s, p, c);
    if i < |s| {
      CharSpansCut(s, i + 1, c);
      CutsNext(s, p, i, CharSpans(s, i + 1, c), SplitFrom(s, i + 1, c));
    } else {
      NothingCut(s);
      CutsNext(s, p, i, [], []);
    }
  }

  lemma CharSpansFirst(s: Text, p: nat, c: byte)
    requires p <= |s|
    ensures var i := Until(s, p, c);
      CharSpans(s, p, c) == [Span(p, i - p)] + if i == |s| then [] else CharSpans(s, i + 1, c)
  {
    hide Until;
  }

  lemma CutsNext(s: Text, p: nat, i: nat, spans: seq<Span>, ps: seq<Text>)
    requires Cuts(s, spans, ps) && p <= i <= |s|
    ensures Cuts(s, [Span(p, i - p)] + spans, [s[p..i]] + ps)
  {
    hide Cuts;
    CutsFirst(s, Span(p, i - p), spans, ps);
  }

  lemma NothingCut(s: Text)
    ensures Cuts(s, [], [])
  {
  }

  lemma {:induction false} SingleSpansCut(s: Text, p: nat)
    requires p <= |s|
    ensures Cuts(s, SingleSpans(s, p), Singles(s, p))
    decreases |s| - p
  {
    if p < |s| {
      hide Cuts;
      SingleSpansCut(s, p + 1);
      assert Cut(s, Span(p, 1)) == [s[p]];
      CutsFirst(s, Span(p, 1), SingleSpans(s, p + 1), Singles(s, p + 1));
    }
  }

  lemma {:induction false} StrSpansCut(s: Text, p: nat, i: nat, sep: Text)
    requires p <= |s| && p <= i && |sep| > 0
    ensures Cuts(s, StrSpans(s, p, i, sep), SplitStrFrom(s, p, i, sep))
    decreases |s| + 1 - i
  {
    hide Match;
    if i + |sep| > |s| {
      assert s[p..] == s[p..|s|];
    } else if Match(s, i, sep) {
      RoomFor(s, i, sep);
      hide Cuts;
      var q := i + |sep|;
      StrSpansCut(s, q, q + 1, sep);
      CutsFirst(s, Span(p, i - p), StrSpans(s, q, q + 1, sep), SplitStrFrom(s, q, q + 1, sep));
    } else {
      StrSpansCut(s, p, i + 1, sep);
    }
  }

  /** What the callback is given are the places of the pieces that the split has. */
  lemma SpansCut(s: Text, pos: nat, sep: Text)
    requires pos <= |s|
    ensures Cuts(s, SpansAt(s, pos, sep), SplitStrAt(s, pos, sep))
  {
    hide Cuts;
    if sep == [] {
      SingleSpansCut(s, pos);
    } else if |sep| == 1 {
      CharSpansCut(s, pos, sep[0]);
    } else {
      StrSpansCut(s, pos, pos, sep);
    }
  }

  datatype Ending<S> = Ending(state: S, ret: int)

  /** The callback is called for one span after the other, until it returns a negative value. */
  function CallAll<S>(cb: (S, nat, nat) -> (S, int), spans: seq<Span>, st: S): Ending<S> {
    if spans == [] then Ending(st, OK)
    else
      var (st', r) := cb(st, spans[0].ofs, spans[0].len);
      if r < 0 then Ending(st', r) else CallAll(cb, spans[1..], st')
  }

  lemma CallOne<S>(cb: (S, nat, nat) -> (S, int), sp: Span, spans: seq<Span>, st: S)
    ensures var (st', r) := cb(st, sp.ofs, sp.len);
      CallAll(cb, [sp] + spans, st) == if r < 0 then Ending(st', r) else CallAll(cb, spans, st')
  {
    assert ([sp] + spans)[1..] == spans;
  }

  /** `bsplitcb` */
  method ForEachPiece<S>(str: View, c: byte, pos: int, cb: (S, nat, nat) -> (S, int), first: S) returns (st: S, ret: int)
    requires str.Valid()
    ensures Ending(st, ret) ==
      if pos < 0 || pos > str.len then Ending(first, ERR) else CallAll(cb, CharSpans(str.Text(), pos, c), first)
  {
    hide CallAll, Until, CharSpans;
    st := first;
    if pos < 0 || pos > str.len { return st, ERR; }
    ghost var s := str.Text();
    ghost var goal := CallAll(cb, CharSpans(s, pos, c), first);
    var p := pos;
    while p <= str.len
      invariant pos <= p <= str.len + 1
      invariant CallAll(cb, if p <= str.len then CharSpans(s, p, c) else [], st) == goal
      decreases str.len + 1 - p
    {
      var i := FindUntil(str, p, c);
      CharSpansFirst(s, p, c);
      CallOne(cb, Span(p, i - p), if i == |s| then [] else CharSpans(s, i + 1, c), st);
      var (st', r) := cb(st, p, i - p);
      st := st';
      if r < 0 { return st, r; }
      p := i + 1;
    }
    NoneToCall(cb, st);
    ret := OK;
  }

  lemma NoneToCall<S>(cb: (S, nat, nat) -> (S, int), st: S)
    ensures CallAll(cb, [], st) == Ending(st, OK)
  {
  }

  /** `bsplitstrcb` */
  method ForEachStrPiece<S>(str: View, sep: View, pos: int, cb: (S, nat, nat) -> (S, int), first: S) returns (st: S, ret: int)
    requires str.Valid() && sep.Valid()
    ensures Ending(st, ret) ==
      if pos < 0 || pos > str.len then Ending(first, ERR) else CallAll(cb, SpansAt(str.Text(), pos, sep.Text()), first)
  {
    hide CallAll;
    if pos < 0 || pos > str.len { return first, ERR; }
    ghost var w := sep.Text();
    if sep.len == 0 {
      st, ret := ForEachSingle(str, pos, cb, first);
    } else if sep.len == 1 {
      assert w[0] == sep.block[sep.start];
      st, ret := ForEachPiece(str, sep.block[sep.start], pos, cb, first);
    } else {
      st, ret := ForEachLonger(str, sep, pos, cb, first);
    }
  }

  method ForEachSingle<S>(str: View, pos: nat, cb: (S, nat, nat) -> (S, int), first: S) returns (st: S, ret: int)
    requires str.Valid() && pos <= str.len
    ensures Ending(st, ret) == CallAll(cb, SingleSpans(str.Text(), pos), first)
  {
    hide CallAll;
    ghost var s := str.Text();
    ghost var goal := CallAll(cb, SingleSpans(s, pos), first);
    st := first;
    var i := pos;
    while i < str.len
      invariant i <= str.len && CallAll(cb, SingleSpans(s, i), st) == goal
    {
      CallOne(cb, Span(i, 1), SingleSpans(s, i + 1), st);
      var (st', r) := cb(st, i, 1);
      st := st';
      if r < 0 { return st, r; }
      i := i + 1;
    }
    NoneToCall(cb, st);
    ret := OK;
  }

  method ForEachLonger<S>(str: View, sep: View, pos: nat, cb: (S, nat, nat) -> (S, int), first: S) returns (st: S, ret: int)
    requires str.Valid() && sep.Valid() && sep.len > 1 && pos <= str.len
    ensures Ending(st, ret) == CallAll(cb, StrSpans(str.Text(), pos, pos, sep.Text()), first)
  {
    hide CallAll, Match;
    ghost var s, w := str.Text(), sep.Text();
    ghost var goal := CallAll(cb, StrSpans(s, pos, pos, w), first);
    st := first;
    var p: nat, i: nat := pos, pos;
    while i + sep.len <= str.len
      invariant p <= str.len && p <= i && CallAll(cb, StrSpans(s, p, i, w), st) == goal
      decreases str.len + 1 - i
    {
      var same := SameAt(str, i, sep);
      if same {
        CallOne(cb, Span(p, i - p), StrSpans(s, i + |w|, i + |w| + 1, w), st);
        var (st', r) := cb(st, p, i - p);
        st := st';
        if r < 0 { return st, r; }
        i := i + sep.len;
        p := i;
      }
      i := i + 1;
    }
    CallOne(cb, Span(p, str.len - p), [], st);
    assert [Span(p, str.len - p)] + [] == [Span(p, str.len - p)];
    var (st', r) := cb(st, p, str.len - p);
    st := st';
    NoneToCall(cb, st);
    ret := if r < 0 then r else OK;
  }
}

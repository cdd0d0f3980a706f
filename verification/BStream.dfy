/** Buffered reading: whatever portions the source delivers its bytes in, none is lost and none is
    returned twice. */
module BStream {
  import opened BString

  /** The source of a stream, an `fread`-like function. It delivers any positive number of the bytes
      asked for, and none only at its end. */
  class Reader {
    var unread: Text

    constructor (text: Text)
      ensures unread == text
    {
      unread := text;
    }

    method Read(dst: array<byte>, at: nat, n: nat) returns (l: nat)
      requires at + n <= dst.Length
      modifies this, dst
      ensures l <= n && l <= |old(unread)| && (l == 0 <==> n == 0 || old(unread) == [])
      ensures unread == old(unread)[l..]
      ensures dst[..] == Pasted(old(dst[..]), at, old(unread)[..l])
    {
      var most := if n <= |unread| then n else |unread|;
      if most == 0 { return 0; }
      l :| 1 <= l <= most;
      forall i | 0 <= i < l {
        dst[at + i] := unread[i];
      }
      unread := unread[l..];
    }
  }

  // ---------- lines ----------

  /** The first piece of p: up to and including the first c, or all of p. */
  function Line(p: Text, c: byte): (r: Text)
    ensures r <= p
    ensures p != [] ==> r != []
  {
    if p == [] then [] else if p[0] == c then [c] else [p[0]] + Line(p[1..], c)
  }

  /** A line has the terminator once, at its end, or it is the last and has none. */
  lemma {:induction false} LineEnds(p: Text, c: byte)
    ensures var r := Line(p, c);
            && (forall i :: 0 <= i < |r| - 1 ==> r[i] != c)
            && (r != p ==> r != [] && r[|r| - 1] == c)
            && (c in p <==> c in r)
  {
    if p != [] && p[0] != c { LineEnds(p[1..], c); }
  }

  lemma {:induction false} LineTo(p: Text, c: byte, i: nat)
    requires i < |p| && p[i] == c && c !in p[..i]
    ensures Line(p, c) == p[..i + 1]
  {
    if i > 0 {
      assert p[0] == p[..i][0];
      assert p[1..][..i - 1] == p[..i][1..];
      LineTo(p[1..], c, i - 1);
      assert p[..i + 1] == [p[0]] + p[1..][..i];
    } else {
      assert p[..1] == [c];
    }
  }

  lemma {:induction false} LineNone(p: Text, c: byte)
    requires c !in p
    ensures Line(p, c) == p
  {
    if p != [] { LineNone(p[1..], c); }
  }

  lemma LineCons(x: byte, p: Text, c: byte)
    requires x != c
    ensures Line([x] + p, c) == [x] + Line(p, c)
  {
    assert ([x] + p)[1..] == p;
  }

  lemma {:induction false} LineAfter(a: Text, p: Text, c: byte)
    requires c !in a
    ensures Line(a + p, c) == a + Line(p, c)
  {
    hide Line;
    if a == [] {
      assert a + p == p && a + Line(p, c) == Line(p, c);
    } else {
      var x, b := a[0], a[1..];
      assert a == [x] + b;
      LineAfter(b, p, c);
      LineCons(x, b + p, c);
      assert a + p == [x] + (b + p) && a + Line(p, c) == [x] + (b + Line(p, c));
    }
  }

  lemma LineBefore(a: Text, p: Text, c: byte)
    requires c in a
    ensures Line(a + p, c) == Line(a, c)
  {
    var i := First(a, c);
    LineTo(a, c, i);
    assert (a + p)[..i] == a[..i] && (a + p)[..i + 1] == a[..i + 1];
    LineTo(a + p, c, i);
  }

  /** Where c is first. */
  function First(a: Text, c: byte): (i: nat)
    requires c in a
    ensures i < |a| && a[i] == c && c !in a[..i]
  {
    if a[0] == c then 0
    else
      var i := First(a[1..], c) + 1;
      assert a[..i] == [a[0]] + a[1..][..i - 1];
      i
  }

  /** All pieces, as successive calls return them. */
  function Lines(p: Text, c: byte): seq<Text>
    decreases |p|
  {
    if p == [] then [] else [Line(p, c)] + Lines(p[|Line(p, c)|..], c)
  }

  function Joined(ps: seq<Text>): Text {
    if ps == [] then [] else ps[0] + Joined(ps[1..])
  }

  /** The pieces together are the whole stream; each of them except possibly the last has the
      terminator exactly once, at its end. */
  lemma {:induction false} LinesConserve(p: Text, c: byte)
    ensures Joined(Lines(p, c)) == p
    ensures forall k :: 0 <= k < |Lines(p, c)| ==> Lines(p, c)[k] != [] && c !in Lines(p, c)[k][..|Lines(p, c)[k]| - 1]
    ensures forall k :: 0 <= k < |Lines(p, c)| - 1 ==> c in Lines(p, c)[k]
    decreases |p|
  {
    hide Line;
    if p != [] {
      var first := Line(p, c);
      var rest := p[|first|..];
      FirstOfLines(p, c);
      LinesConserve(rest, c);
      assert Lines(p, c) == [first] + Lines(rest, c);
      forall k | 0 < k < |Lines(p, c)|
        ensures Lines(p, c)[k] == Lines(rest, c)[k - 1]
      {
      }
      if rest == [] { assert Lines(rest, c) == []; }
    }
  }

  lemma FirstOfLines(p: Text, c: byte)
    requires p != []
    ensures var r := Line(p, c);
      && r != [] && c !in r[..|r| - 1] && r + p[|r|..] == p && (p[|r|..] != [] ==> c in r)
  {
    LineEnds(p, c);
    hide Line;
    var r := Line(p, c);
    assert r == p[..|r|];
    if p[|r|..] == [] { assert r == p; }
  }

  /** What is left of p after k calls that each return the next line. */
  function LeftAfter(p: Text, c: byte, k: nat): Text {
    if k == 0 then p
    else
      var q := LeftAfter(p, c, k - 1);
      q[|Line(q, c)|..]
  }

  lemma {:induction false} LeftStep(p: Text, c: byte, k: nat)
    ensures LeftAfter(p, c, k + 1) == LeftAfter(p[|Line(p, c)|..], c, k)
  {
    hide Line;
    if k > 0 { LeftStep(p, c, k - 1); }
  }

  /** Call k returns piece k, and after as many calls as there are pieces nothing is left. */
  lemma {:induction false} CallsAreLines(p: Text, c: byte, k: nat)
    ensures k < |Lines(p, c)| ==> Line(LeftAfter(p, c, k), c) == Lines(p, c)[k]
    ensures k >= |Lines(p, c)| ==> LeftAfter(p, c, k) == []
    decreases |p|
  {
    hide Line;
    if k > 0 {
      if p != [] {
        LeftStep(p, c, k - 1);
        CallsAreLines(p[|Line(p, c)|..], c, k - 1);
      } else {
        NothingLeft(c, k);
      }
    }
  }

  lemma {:induction false} NothingLeft(c: byte, k: nat)
    ensures LeftAfter([], c, k) == []
  {
    if k > 0 { NothingLeft(c, k - 1); }
  }

  // ---------- the stream ----------

  /** What a portion just read brought. */
  datatype Outcome = AtEnd | Hit | Miss

  class Stream {
    const buff: BString
    const reader: Reader
    var isEOF: bool
    var maxBuffSz: nat

    ghost predicate Valid()
      reads this, buff, reader
    {
      buff.Valid() && 0 < maxBuffSz && maxBuffSz + 1 < SIZE_LIMIT && (isEOF ==> reader.unread == [])
    }

    /** What is still to come: the bytes read ahead, then the rest of the source. */
    ghost function Pending(): Text
      requires Valid()
      reads this, buff, buff.data, reader
    {
      buff.Text() + reader.unread
    }

    /** The end of the source was met and nothing is buffered. */
    ghost predicate Ended()
      reads this, buff
    {
      isEOF && buff.slen == 0
    }

    ghost predicate Apart(r: BString)
      reads r, buff
    {
      r != buff && r.data != buff.data
    }

    ghost predicate Fits(r: BString)
      requires Valid() && r.Valid()
      reads this, buff, buff.data, reader, r
    {
      r.slen + |Pending()| + maxBuffSz + 2 < SIZE_LIMIT
    }

    /** `bsopen` */
    constructor (source: Reader)
      ensures Valid() && fresh(buff) && fresh(buff.data) && reader == source
      ensures Pending() == source.unread && maxBuffSz == 1024 && !isEOF
    {
      buff := new BString();
      reader := source;
      isEOF := false;
      maxBuffSz := 1024;
    }

    /** `bsbufflength`: sets the size unless it is 0, and returns the old one. */
    method BuffLength(sz: int) returns (old_sz: int)
      requires Valid() && sz + 1 < SIZE_LIMIT
      modifies this`maxBuffSz
      ensures Valid() && Pending() == old(Pending())
      ensures if sz < 0 then old_sz == ERR && maxBuffSz == old(maxBuffSz)
              else old_sz == old(maxBuffSz) && maxBuffSz == (if sz > 0 then sz else old(maxBuffSz))
    {
      if sz < 0 { return ERR; }
      old_sz := maxBuffSz;
      if sz > 0 { maxBuffSz := sz; }
    }

    /** `bseof` */
    method AtEOF() returns (r: bool)
      requires Valid()
      ensures (r <==> Ended()) && (r ==> Pending() == [])
    {
      r := isEOF && buff.slen == 0;
    }

    /** `bsunread` */
    method Unread(v: View) returns (ret: int)
      requires Valid() && buff.Readable(v) && buff.slen + v.len + 1 < SIZE_LIMIT
      modifies buff, buff.data
      ensures ret == OK && Valid() && Pending() == old(v.Text()) + old(Pending())
      ensures buff.data == old(buff.data) || fresh(buff.data)
    {
      ret := buff.Insert(0, v, 63);
      assert Head(old(buff.Text()), 0, 63) == [] && Tail(old(buff.Text()), 0) == old(buff.Text());
    }

    /** The position of the terminator among the l bytes at position at; a sentinel stops the scan. */
    method ScanFor(b: array<byte>, at: nat, l: nat, c: byte) returns (i: nat)
      requires at + l < b.Length
      modifies b
      ensures b[..at + l] == old(b[..at + l])
      ensures i <= l && c !in b[at..at + i] && (i < l ==> b[at + i] == c)
    {
      b[at + l] := c;
      i := 0;
      while b[at + i] != c
        invariant i <= l && forall k :: at <= k < at + i ==> b[k] != c
        decreases l - i
      {
        i := i + 1;
      }
    }

    /** `bsreadlna`: the next line, whatever the portions are. */
    method ReadLine(r: BString, c: byte) returns (ret: int)
      requires Valid() && r.Valid() && Apart(r) && Fits(r)
      modifies this, buff, buff.data, reader, r, r.data
      ensures Valid() && r.Valid() && Apart(r)
      ensures buff.data == old(buff.data) || fresh(buff.data)
      ensures r.data == old(r.data) || fresh(r.data)
      ensures r.Text() == old(r.Text()) + Line(old(Pending()), c)
      ensures Pending() == old(Pending())[|Line(old(Pending()), c)|..]
      ensures ret == (if old(Pending()) == [] then ERR else OK) && maxBuffSz == old(maxBuffSz)
      ensures if c in old(Pending()) then isEOF == old(isEOF) else Ended()
    {
      hide Line;
      ghost var b0, u0 := buff.Text(), reader.unread;
      var l := buff.slen;
      var i := SearchBuffer(c);
      if i < l {
        FoundBuffered(b0, u0, c, i);
        TakeBuffered(r, i + 1);
        ret := OK;
      } else {
        ret := ReadBeyond(r, c);
      }
    }

    /** The terminator is not in the buffer: all of it is returned, and reading goes on. */
    method ReadBeyond(r: BString, c: byte) returns (ret: int)
      requires Valid() && r.Valid() && Apart(r) && Fits(r) && maxBuffSz < buff.data.Length && c !in buff.Text()
      modifies this, buff`slen, buff.data, reader, r, r.data
      ensures Valid() && r.Valid() && Apart(r)
      ensures buff.data == old(buff.data) && (r.data == old(r.data) || fresh(r.data))
      ensures r.Text() == old(r.Text()) + Line(old(Pending()), c)
      ensures Pending() == old(Pending())[|Line(old(Pending()), c)|..]
      ensures ret == (if old(Pending()) == [] then ERR else OK) && maxBuffSz == old(maxBuffSz)
      ensures if c in old(Pending()) then isEOF == old(isEOF) else Ended()
    {
      hide Line;
      ghost var b0, u0, r0 := buff.Text(), reader.unread, r.Text();
      var rlo := r.slen;
      AppendBuffer(r);
      ret := ReadOn(r, c, rlo);
      LineBehind(b0, u0, r0, c);
    }

    /** First the terminator is looked for in the buffer, which has room for a whole portion. */
    method SearchBuffer(c: byte) returns (i: nat)
      requires Valid()
      modifies buff`data, buff.data
      ensures Valid() && buff.Text() == old(buff.Text()) && maxBuffSz < buff.data.Length
      ensures Pending() == old(buff.Text()) + reader.unread
      ensures buff.data == old(buff.data) || fresh(buff.data)
      ensures i <= buff.slen && c !in buff.Text()[..i]
      ensures if i < buff.slen then buff.Text()[i] == c else c !in buff.Text()
    {
      ghost var b0 := buff.Text();
      var ret := buff.Balloc(maxBuffSz + 1);
      i := ScanFor(buff.data, 0, buff.slen, c);
      assert buff.Text() == b0;
      assert buff.data[0..0 + i] == b0[..i];
      if i == buff.slen { assert b0[..i] == b0; }
    }

    /** The whole buffer joins the text. */
    method AppendBuffer(r: BString)
      requires Valid() && r.Valid() && Apart(r) && Fits(r)
      modifies r, r.data
      ensures Valid() && r.Valid() && Apart(r) && (r.data == old(r.data) || fresh(r.data))
      ensures r.Text() == old(r.Text()) + buff.Text() && r.slen == old(r.slen) + buff.slen
      ensures r.slen + |reader.unread| + maxBuffSz + 2 < SIZE_LIMIT
      ensures buff.data == old(buff.data) && buff.slen == old(buff.slen) && buff.Text() == old(buff.Text())
    {
      var ret := r.Concat(buff.All());
    }

    /** n bytes of the buffer are returned and deleted from it. */
    method TakeBuffered(r: BString, n: nat)
      requires Valid() && r.Valid() && Apart(r) && n <= buff.slen && r.slen + n + 1 < SIZE_LIMIT
      modifies buff`slen, buff.data, r, r.data
      ensures Valid() && r.Valid() && Apart(r) && (r.data == old(r.data) || fresh(r.data))
      ensures r.Text() == old(r.Text()) + old(buff.Text())[..n]
      ensures Pending() == old(buff.Text())[n..] + reader.unread
      ensures buff.data == old(buff.data)
    {
      ghost var b0 := buff.Text();
      var x := View(buff.data, 0, n);
      assert x.Text() == b0[..n];
      var ret := r.Concat(x);
      assert buff.Text() == b0;
      ret := buff.Delete(0, n);
      assert Without(b0, 0, n) == b0[n..];
    }

    /** A read directly behind the text of r. */
    method ReadPortion(r: BString) returns (l: nat)
      requires r.Valid() && 0 < maxBuffSz && r.slen + maxBuffSz + 2 < SIZE_LIMIT
      modifies r`data, r.data, reader
      ensures r.Valid() && r.Text() == old(r.Text()) && (r.data == old(r.data) || fresh(r.data))
      ensures r.slen + l < r.data.Length && l <= |old(reader.unread)| && (l == 0 <==> old(reader.unread) == [])
      ensures r.data[r.slen..r.slen + l] == old(reader.unread)[..l] && reader.unread == old(reader.unread)[l..]
      ensures l <= maxBuffSz
    {
      hide Pasted;
      ghost var s := r.Text();
      var ret := r.Balloc(r.slen + maxBuffSz + 1);
      assert r.Text() == s;
      ghost var was := r.data[..];
      l := reader.Read(r.data, r.slen, maxBuffSz);
      PastedParts(was, r.slen, old(reader.unread)[..l]);
      assert r.data[r.slen..r.slen + l] == r.data[..][r.slen..r.slen + l];
      assert r.Text() == r.data[..][..r.slen] == was[..r.slen];
    }

    /** The loop of `bsreadlna`: nothing that was read so far holds the terminator. */
    method ReadOn(r: BString, c: byte, rlo: nat) returns (ret: int)
      requires Valid() && r.Valid() && Apart(r) && buff.data.Length > maxBuffSz
      requires rlo <= r.slen && r.slen + |reader.unread| + maxBuffSz + 2 < SIZE_LIMIT
      modifies this, buff`slen, buff.data, reader, r, r.data
      ensures Valid() && r.Valid() && Apart(r) && maxBuffSz == old(maxBuffSz)
      ensures r.data == old(r.data) || fresh(r.data)
      ensures r.Text() == old(r.Text()) + Line(old(reader.unread), c)
      ensures Pending() == old(reader.unread)[|Line(old(reader.unread), c)|..]
      ensures ret == (if old(r.slen) == rlo && old(reader.unread) == [] then ERR else OK)
      ensures buff.data == old(buff.data)
      ensures if c in old(reader.unread) then isEOF == old(isEOF) else Ended()
    {
      hide *;
      ghost var r0, u0, done: Text := r.Text(), reader.unread, [];
      assert u0 == done + reader.unread && r.Text() == r0 + done;
      while true
        invariant Valid() && r.Valid() && Apart(r) && buff.data == old(buff.data) && maxBuffSz == old(maxBuffSz)
        invariant r.data == old(r.data) || fresh(r.data)
        invariant u0 == done + reader.unread && c !in done && r.Text() == r0 + done && isEOF == old(isEOF)
        decreases |reader.unread|
      {
        ghost var u := reader.unread;
        ghost var l;
        var outcome;
        outcome, l := Portion(r, c);
        if outcome == Miss {
          MissParts(r0, done, u, l, c);
          done := done + u[..l];
        } else {
          HitParts(r0, done, u, c);
          return if outcome == AtEnd && r.slen == rlo then ERR else OK;
        }
      }
    }

    /** One portion is read and searched: the source is at its end, the terminator is in the portion
        and the rest of it is pushed back, or the portion joins the text. */
    method Portion(r: BString, c: byte) returns (outcome: Outcome, ghost l: nat)
      requires Valid() && r.Valid() && Apart(r) && buff.data.Length > maxBuffSz
      requires r.slen + |reader.unread| + maxBuffSz + 2 < SIZE_LIMIT
      modifies this`isEOF, buff`slen, buff.data, reader, r, r.data
      ensures Valid() && r.Valid() && Apart(r) && (r.data == old(r.data) || fresh(r.data))
      ensures buff.data == old(buff.data) && maxBuffSz == old(maxBuffSz)
      ensures l <= |old(reader.unread)| && (outcome == AtEnd <==> old(reader.unread) == [])
      ensures reader.unread == old(reader.unread)[l..]
      ensures var u := old(reader.unread); outcome != Miss ==>
        && r.Text() == old(r.Text()) + Line(u, c) && Pending() == u[|Line(u, c)|..]
        && (outcome == Hit ==> Line(u, c) != [] && c in u)
      ensures if outcome == AtEnd then Ended() else isEOF == old(isEOF)
      ensures outcome == Miss ==>
        l > 0 && c !in old(reader.unread)[..l] && r.Text() == old(r.Text()) + old(reader.unread)[..l]
    {
      hide Line;
      ghost var u := reader.unread;
      var n := ReadPortion(r);
      l := n;
      if n == 0 {
        Exhausted(r);
        LineNone(u, c);
        return AtEnd, 0;
      }
      outcome := SearchPortion(r, n, c, u);
    }

    /** The terminator is looked for in the n bytes behind the text, which were the first of u. */
    method SearchPortion(r: BString, n: nat, c: byte, ghost u: Text) returns (outcome: Outcome)
      requires buff.Valid() && r.Valid() && Apart(r) && n < buff.data.Length && r.slen + n < r.data.Length
      requires 0 < n <= |u| && r.data[r.slen..r.slen + n] == u[..n] && reader.unread == u[n..]
      modifies buff`slen, buff.data, r`slen, r.data
      ensures buff.Valid() && r.Valid() && outcome != AtEnd
      ensures outcome == Hit ==>
        r.Text() == old(r.Text()) + Line(u, c) && buff.Text() + reader.unread == u[|Line(u, c)|..] && Line(u, c) != [] && c in u
      ensures outcome == Miss ==> c !in u[..n] && r.Text() == old(r.Text()) + u[..n]
    {
      hide Line;
      var i := ScanPortion(r, n, c);
      if i < n {
        FoundAhead(u, u[..n], c, i);
        assert u[i] == u[..n][i] == c;
        PushBack(r, n, i + 1);
        return Hit;
      }
      assert u[..n][..i] == u[..n];
      Extend(r, n);
      outcome := Miss;
    }

    /** The n bytes behind the text join it. */
    method Extend(r: BString, n: nat)
      requires r.Valid() && r.slen + n < r.data.Length
      modifies r`slen
      ensures r.Valid() && r.Text() == old(r.Text()) + old(r.data[r.slen..r.slen + n])
    {
      r.slen := r.slen + n;
    }

    /** `bsreada`: up to n bytes. Without a buffer and with room in r it may return fewer than there
        are; otherwise it returns n, or all there are. */
    method ReadBytes(r: BString, n: int) returns (ret: int)
      requires Valid() && r.Valid() && Apart(r) && Fits(r) && n < INT_LIMIT
      modifies this, buff, buff.data, reader, r, r.data
      ensures Valid() && r.Valid() && Apart(r) && maxBuffSz == old(maxBuffSz)
      ensures buff.data == old(buff.data) || fresh(buff.data)
      ensures r.data == old(r.data) || fresh(r.data)
      ensures old(r.slen) <= r.slen <= old(r.slen) + |old(Pending())|
      ensures var k := r.slen - old(r.slen);
        && r.Text() == old(r.Text()) + old(Pending())[..k] && Pending() == old(Pending())[k..]
        && ret == (if k == 0 then ERR else OK)
        && (if n <= 0 || n + old(r.slen) >= INT_LIMIT then k == 0
            else if old(buff.slen == 0 && r.data.Length > n + r.slen) then k <= n && (k == 0 <==> old(Pending()) == [])
            else k == (if n <= |old(Pending())| then n else |old(Pending())|))
        && (if n <= 0 || n + old(r.slen) >= INT_LIMIT then isEOF == old(isEOF)
            else if k == 0 || (k < n && !old(buff.slen == 0 && r.data.Length > n + r.slen)) then Ended()
            else isEOF == old(isEOF))
    {
      if n <= 0 || n + r.slen >= INT_LIMIT {
        Nothing(r.Text(), Pending());
        return ERR;
      }
      var goal := n + r.slen;
      if buff.slen == 0 && (isEOF || r.data.Length > goal) {
        ret := ReadDirect(r, n);
      } else {
        ret := ReadThrough(r, goal);
      }
    }

    /** Nothing is buffered: one read goes straight into r, unless the source is at its end. */
    method ReadDirect(r: BString, n: nat) returns (ret: int)
      requires Valid() && r.Valid() && Apart(r) && buff.slen == 0 && n > 0
      requires isEOF || r.data.Length > n + r.slen
      modifies this`isEOF, reader, r`slen, r.data
      ensures Valid() && r.Valid() && old(r.slen) <= r.slen <= old(r.slen) + |old(Pending())|
      ensures var k := r.slen - old(r.slen);
        && r.Text() == old(r.Text()) + old(Pending())[..k] && Pending() == old(Pending())[k..]
        && ret == (if k == 0 then ERR else OK) && k <= n && (k == 0 <==> old(Pending()) == [])
        && (if k == 0 then Ended() else isEOF == old(isEOF))
    {
      NoBuffer(buff.Text(), reader.unread);
      Nothing(r.Text(), reader.unread);
      if isEOF { return ERR; }
      var l := ReadInto(r, n);
      NoBuffer(buff.Text(), reader.unread);
      if l == 0 { isEOF := true; }
      ret := if l == 0 then ERR else OK;
    }

    /** One read of up to n bytes, which join the text of r. */
    method ReadInto(r: BString, n: nat) returns (l: nat)
      requires r.Valid() && n > 0 && r.data.Length > n + r.slen
      modifies reader, r`slen, r.data
      ensures r.Valid() && l <= n && l <= |old(reader.unread)| && (l == 0 <==> old(reader.unread) == [])
      ensures r.slen == old(r.slen) + l && r.Text() == old(r.Text()) + old(reader.unread)[..l]
      ensures reader.unread == old(reader.unread)[l..]
    {
      hide Pasted;
      ghost var u, was := reader.unread, r.data[..];
      l := reader.Read(r.data, r.slen, n);
      PastedUpTo(was, r.slen, u[..l]);
      assert r.data[..r.slen + l] == r.data[..][..r.slen + l] && was[..r.slen] == old(r.Text());
      if l > 0 {
        r.slen := r.slen + l;
        r.data[r.slen] := 0;
      }
    }

    /** Portions go through the buffer until r has grown to the goal. */
    method ReadThrough(r: BString, goal: nat) returns (ret: int)
      requires Valid() && r.Valid() && Apart(r) && Fits(r) && r.slen < goal
      modifies this, buff, buff.data, reader, r, r.data
      ensures Valid() && r.Valid() && Apart(r) && maxBuffSz == old(maxBuffSz)
      ensures buff.data == old(buff.data) || fresh(buff.data)
      ensures r.data == old(r.data) || fresh(r.data)
      ensures var p, room := old(Pending()), goal - old(r.slen); var k := if room <= |p| then room else |p|;
        && r.slen == old(r.slen) + k && r.Text() == old(r.Text()) + p[..k] && Pending() == p[k..]
        && ret == (if k == 0 then ERR else OK)
        && (if k < room then Ended() else isEOF == old(isEOF))
    {
      hide Holding;
      ghost var p := Pending();
      var orslen := r.slen;
      var l := HoldBuffer();
      Pump(r, l, goal, p);
      ret := if r.slen == orslen then ERR else OK;
    }

    method Pump(r: BString, l0: nat, goal: nat, ghost p: Text)
      requires Holding(l0, p) && l0 <= |p| && r.Valid() && Apart(r)
      requires r.slen < goal && r.slen + |p| + 1 < SIZE_LIMIT
      modifies this`isEOF, buff`slen, buff.data, reader, r, r.data
      ensures Valid() && r.Valid() && Apart(r) && buff.data == old(buff.data)
      ensures r.data == old(r.data) || fresh(r.data)
      ensures var room := goal - old(r.slen); var k := if room <= |p| then room else |p|;
        && r.slen == old(r.slen) + k && r.Text() == old(r.Text()) + p[..k] && Pending() == p[k..]
        && (if k < room then Ended() else isEOF == old(isEOF))
    {
      hide Holding;
      ghost var r0 := r.Text();
      ghost var k: nat := 0;
      Nothing(r0, p);
      var l: nat := l0;
      var more := true;
      while more
        invariant r.Valid() && Apart(r) && buff.data == old(buff.data) && (r.data == old(r.data) || fresh(r.data))
        invariant k <= |p| && r.slen == |r0| + k && r.Text() == r0 + p[..k]
        invariant if more then Holding(l, p[k..]) && l <= |p| - k && r.slen < goal
                  else Valid() && Pending() == p[k..] && (k == |p| <= goal - |r0| || k == goal - |r0|)
        invariant if !more && k < goal - |r0| then Ended() else isEOF == old(isEOF)
        decreases more, |p| - k - l
      {
        ghost var taken;
        l, more, taken := Transfer(r, l, goal, p[k..]);
        TakeMore(p, r0, k, taken);
        k := k + taken;
      }
    }

    /** One round: the rest that r can take is delivered from the buffer, or the buffer is passed on
        and filled again, unless the source is at its end. */
    method Transfer(r: BString, l: nat, goal: nat, ghost rest: Text) returns (l': nat, more: bool, ghost taken: nat)
      requires Holding(l, rest) && r.Valid() && Apart(r) && l <= |rest|
      requires r.slen < goal && r.slen + |rest| + 1 < SIZE_LIMIT
      modifies this`isEOF, buff`slen, buff.data, reader, r, r.data
      ensures r.Valid() && Apart(r) && (r.data == old(r.data) || fresh(r.data)) && buff.data == old(buff.data)
      ensures taken <= |rest| && r.slen == old(r.slen) + taken && r.Text() == old(r.Text()) + rest[..taken]
      ensures if more then Holding(l', rest[taken..]) && l' <= |rest| - taken && r.slen < goal && taken + l' > l
              else Valid() && Pending() == rest[taken..] && (r.slen == goal || (taken == |rest| && r.slen < goal))
      ensures if !more && r.slen < goal then Ended() else isEOF == old(isEOF)
    {
      hide Holding;
      if l + r.slen >= goal {
        taken := goal - r.slen;
        Deliver(r, l, goal - r.slen, rest);
        l', more := 0, false;
      } else {
        taken := l;
        l' := PassOn(r, l, goal, rest);
        more := l' > 0;
        if l' == 0 { Finish(); }
      }
    }

    /** The first l bytes of the buffer are still to be returned, whatever its length says. */
    ghost predicate Holding(l: nat, rest: Text)
      reads this, buff, buff.data, reader
    {
      && buff.Valid() && 0 < maxBuffSz < buff.data.Length && maxBuffSz + 1 < SIZE_LIMIT
      && l < buff.data.Length && rest == buff.data[..l] + reader.unread && (isEOF ==> reader.unread == [])
    }

    method HoldBuffer() returns (l: nat)
      requires Valid()
      modifies buff`data, buff.data
      ensures Holding(l, old(Pending())) && l <= |old(Pending())|
      ensures buff.data == old(buff.data) || fresh(buff.data)
    {
      l := buff.slen;
      var ret := buff.Balloc(maxBuffSz + 1);
    }

    method Deliver(r: BString, l: nat, x: nat, ghost rest: Text)
      requires Holding(l, rest) && r.Valid() && Apart(r) && x <= l <= |rest| && r.slen + |rest| + 1 < SIZE_LIMIT
      modifies buff`slen, buff.data, r, r.data
      ensures Valid() && r.Valid() && Apart(r) && (r.data == old(r.data) || fresh(r.data))
      ensures x <= |rest| && r.Text() == old(r.Text()) + rest[..x] && Pending() == rest[x..]
      ensures buff.data == old(buff.data)
    {
      buff.slen := l;
      DropJoined(buff.Text(), reader.unread, x);
      TakeBuffered(r, x);
    }

    /** The l buffered bytes join the text of r, and the next portion comes into the buffer. */
    method PassOn(r: BString, l: nat, goal: nat, ghost rest: Text) returns (l': nat)
      requires Holding(l, rest) && r.Valid() && Apart(r)
      requires l + r.slen < goal && r.slen + |rest| + 1 < SIZE_LIMIT
      modifies buff.data, reader, r, r.data
      ensures r.Valid() && Apart(r) && (r.data == old(r.data) || fresh(r.data))
      ensures l <= |rest| && r.Text() == old(r.Text()) + rest[..l] && r.slen == old(r.slen) + l
      ensures Holding(l', rest[l..]) && l' <= |rest[l..]| && (l' == 0 ==> rest[l..] == [] && reader.unread == [])
      ensures buff.data == old(buff.data) && maxBuffSz == old(maxBuffSz)
    {
      ghost var u := reader.unread;
      DropJoined(buff.data[..l], u, l);
      var ret := r.Concat(View(buff.data, 0, l));
      l' := Refill(if goal - r.slen > maxBuffSz then maxBuffSz else goal - r.slen);
    }

    /** A portion of the source comes into the buffer. */
    method Refill(most: nat) returns (l: nat)
      requires 0 < most < buff.data.Length
      modifies buff.data, reader
      ensures l <= most && buff.data[..l] + reader.unread == old(reader.unread)
      ensures l == 0 <==> old(reader.unread) == []
    {
      hide Pasted;
      ghost var u, was := reader.unread, buff.data[..];
      l := reader.Read(buff.data, 0, most);
      PastedParts(was, 0, u[..l]);
      assert buff.data[..l] == buff.data[..][0..l];
      assert u == u[..l] + u[l..];
    }

    /** The source is at its end. */
    method Finish()
      requires Holding(0, []) && reader.unread == []
      modifies buff`slen, this`isEOF
      ensures Valid() && Pending() == [] && Ended()
      ensures buff.data == old(buff.data)
    {
      buff.slen := 0;
      isEOF := true;
    }

    /** `bsread` */
    method ReadFresh(r: BString, n: int) returns (ret: int)
      requires Valid() && r.Valid() && Apart(r) && |Pending()| + maxBuffSz + 2 < SIZE_LIMIT && n < INT_LIMIT
      modifies this, buff, buff.data, reader, r, r.data
      ensures Valid() && r.Valid() && Apart(r) && maxBuffSz == old(maxBuffSz)
      ensures buff.data == old(buff.data) || fresh(buff.data)
      ensures r.data == old(r.data) || fresh(r.data)
      ensures n <= 0 ==> ret == ERR && r.Text() == old(r.Text()) && Pending() == old(Pending())
      ensures n > 0 ==> r.Text() + Pending() == old(Pending()) && |r.Text()| <= n
      ensures n > 0 ==> ret == (if r.slen == 0 then ERR else OK) && (r.slen == 0 <==> old(Pending()) == [])
      ensures n > 0 && n >= old(r.data.Length) ==> |r.Text()| == n || Pending() == []
      ensures n > 0 && ret == ERR ==> Ended()
    {
      hide Fits;
      if n <= 0 { return ERR; }
      Rewind(r);
      ghost var p := Pending();
      ret := ReadBytes(r, n);
      FromNothing(p, r.slen);
    }

    /** The buffer gets room for a whole portion, and r is emptied. */
    method Rewind(r: BString)
      requires Valid() && r.Valid() && Apart(r) && |Pending()| + maxBuffSz + 2 < SIZE_LIMIT
      modifies buff`data, buff.data, r`slen
      ensures Valid() && r.Valid() && Apart(r) && Pending() == old(Pending()) && r.Text() == [] && Fits(r)
      ensures buff.data == old(buff.data) || fresh(buff.data)
    {
      var ret := buff.Balloc(maxBuffSz + 1);
      r.slen := 0;
    }

    /** `bsreadln` */
    method ReadLineFresh(r: BString, c: byte) returns (ret: int)
      requires Valid() && r.Valid() && Apart(r) && |Pending()| + maxBuffSz + 2 < SIZE_LIMIT
      modifies this, buff, buff.data, reader, r, r.data
      ensures Valid() && r.Valid() && Apart(r)
      ensures buff.data == old(buff.data) || fresh(buff.data)
      ensures r.data == old(r.data) || fresh(r.data)
      ensures r.Text() == Line(old(Pending()), c) && Pending() == old(Pending())[|r.Text()|..]
      ensures ret == (if old(Pending()) == [] then ERR else OK) && maxBuffSz == old(maxBuffSz)
      ensures if c in old(Pending()) then isEOF == old(isEOF) else Ended()
    {
      hide Line;
      Rewind(r);
      ret := ReadLine(r, c);
      assert [] + Line(old(Pending()), c) == Line(old(Pending()), c);
    }

    method Exhausted(r: BString)
      requires Valid() && r.Valid() && Apart(r) && reader.unread == []
      modifies r.data, buff`slen, this`isEOF
      ensures Valid() && r.Valid() && r.Text() == old(r.Text()) && Pending() == [] && Ended()
      ensures r.data == old(r.data) && buff.data == old(buff.data) && Apart(r)
    {
      r.data[r.slen] := 0;
      buff.slen := 0;
      isEOF := true;
    }

    method ScanPortion(r: BString, l: nat, c: byte) returns (i: nat)
      requires r.Valid() && r.slen + l < r.data.Length
      modifies r.data
      ensures r.Text() == old(r.Text()) && r.data[r.slen..r.slen + l] == old(r.data[r.slen..r.slen + l])
      ensures var got := old(r.data[r.slen..r.slen + l]); i <= l && c !in got[..i] && (i < l ==> got[i] == c)
      ensures r.data == old(r.data) && r.slen == old(r.slen) && r.Valid()
    {
      ghost var was := r.data[..r.slen + l];
      i := ScanFor(r.data, r.slen, l, c);
      assert r.Text() == was[..r.slen] && r.data[r.slen..r.slen + l] == was[r.slen..];
      SubSlice(r.data, r.slen, i, l);
    }

    /** The bytes up to the terminator join the text, the rest goes back to the buffer. */
    method PushBack(r: BString, l: nat, i: nat)
      requires buff.Valid() && r.Valid() && Apart(r) && 0 < i <= l < buff.data.Length && r.slen + l < r.data.Length
      modifies buff`slen, buff.data, r`slen, r.data
      ensures buff.Valid() && r.Valid()
      ensures r.Text() == old(r.Text()) + old(r.data[r.slen..r.slen + l])[..i]
      ensures buff.Text() == old(r.data[r.slen..r.slen + l])[i..]
      ensures r.data == old(r.data) && buff.data == old(buff.data) && Apart(r)
    {
      r.slen := r.slen + i;
      buff.slen := l - i;
      Copy(buff.data, 0, View(r.data, r.slen, l - i));
      r.data[r.slen] := 0;
    }
  }

  lemma FromNothing(p: Text, k: nat)
    requires k <= |p|
    ensures [] + p[..k] == p[..k] && |p[..k]| == k && p[..k] + p[k..] == p && |p[k..]| == |p| - k
  {
  }

  lemma NoBuffer(b: Text, u: Text)
    requires b == []
    ensures b + u == u
  {
  }

  lemma Regroup(a: Text, b: Text, c: Text)
    ensures a + b + c == a + (b + c)
  {
  }

  lemma SubSlice(b: array<byte>, at: nat, i: nat, l: nat)
    requires i <= l && at + l <= b.Length
    ensures b[at..at + l][..i] == b[at..at + i]
  {
    var s, t := b[at..at + l], b[at..at + i];
    assert forall k :: 0 <= k < i ==> s[k] == b[at + k] == t[k];
  }

  lemma HitParts(r0: Text, done: Text, u: Text, c: byte)
    requires c !in done
    ensures r0 + done + Line(u, c) == r0 + Line(done + u, c)
    ensures (done + u)[|Line(done + u, c)|..] == u[|Line(u, c)|..]
  {
    hide Line;
    LineAfter(done, u, c);
    var l := Line(u, c);
    Regroup(r0, done, l);
    DropFront(done, u, |l|);
  }

  /** The line that begins with the whole buffer b. */
  lemma LineBehind(b: Text, u: Text, r: Text, c: byte)
    requires c !in b
    ensures Line(b + u, c) == b + Line(u, c) && r + b + Line(u, c) == r + Line(b + u, c)
    ensures (b + u)[|Line(b + u, c)|..] == u[|Line(u, c)|..]
  {
    hide Line;
    LineAfter(b, u, c);
    Regroup(r, b, Line(u, c));
    DropFront(b, u, |Line(u, c)|);
  }

  lemma DropFront(a: Text, b: Text, n: nat)
    requires n <= |b|
    ensures (a + b)[|a| + n..] == b[n..]
  {
  }

  lemma MissParts(r0: Text, done: Text, u: Text, l: nat, c: byte)
    requires l <= |u| && c !in done && c !in u[..l]
    ensures r0 + done + u[..l] == r0 + (done + u[..l]) && c !in done + u[..l]
    ensures done + u == done + u[..l] + u[l..]
  {
  }

  lemma DropJoined(b: Text, u: Text, x: nat)
    requires x <= |b|
    ensures (b + u)[..x] == b[..x] && (b + u)[x..] == b[x..] + u
    ensures b[|b|..] + u == u && b[..|b|] == b
  {
  }

  lemma TakeMore(p: Text, r: Text, k: nat, x: nat)
    requires k + x <= |p|
    ensures r + p[..k] + p[k..][..x] == r + p[..k + x] && p[k..][x..] == p[k + x..]
  {
    assert p[..k + x] == p[..k] + p[k..][..x];
  }

  lemma Nothing(s: Text, p: Text)
    ensures s == s + p[..0] && p == p[0..]
  {
  }

  lemma PastedParts(s: Text, d: nat, t: Text)
    requires d + |t| <= |s|
    ensures Pasted(s, d, t)[d..d + |t|] == t && Pasted(s, d, t)[..d] == s[..d]
  {
  }

  /** The terminator is in the portion just read. */
  lemma FoundAhead(u: Text, got: Text, c: byte, i: nat)
    requires got <= u && i < |got| && got[i] == c && c !in got[..i]
    ensures Line(u, c) == got[..i + 1] && u[i + 1..] == got[i + 1..] + u[|got|..]
  {
    assert u[..i] == got[..i] && u[..i + 1] == got[..i + 1];
    LineTo(u, c, i);
  }

  lemma FoundBuffered(b: Text, u: Text, c: byte, i: nat)
    requires i < |b| && b[i] == c && c !in b[..i]
    ensures Line(b + u, c) == b[..i + 1] && (b + u)[i + 1..] == b[i + 1..] + u
  {
    LineTo(b, c, i);
    LineBefore(b, u, c);
  }

  // ---------- many calls on one stream ----------

  /** A caller's `bsreadln` and `bsunread`. */
  datatype Call = NextLine | PushBack(text: Text)

  /** What is left of p after one call, what it returned, and what it pushed back. */
  function After(p: Text, call: Call, c: byte): Text {
    match call
    case NextLine => p[|Line(p, c)|..]
    case PushBack(t) => t + p
  }

  function Returned(p: Text, call: Call, c: byte): seq<Text> {
    match call
    case NextLine => [Line(p, c)]
    case PushBack(_) => []
  }

  function Given(call: Call): Text {
    match call
    case NextLine => []
    case PushBack(t) => t
  }

  /** The same for all the calls. */
  function Left(p: Text, calls: seq<Call>, c: byte): Text {
    if calls == [] then p else After(Left(p, calls[..|calls| - 1], c), calls[|calls| - 1], c)
  }

  function Results(p: Text, calls: seq<Call>, c: byte): seq<Text> {
    if calls == [] then []
    else Results(p, calls[..|calls| - 1], c) + Returned(Left(p, calls[..|calls| - 1], c), calls[|calls| - 1], c)
  }

  function Pushed(calls: seq<Call>): Text {
    if calls == [] then [] else Pushed(calls[..|calls| - 1]) + Given(calls[|calls| - 1])
  }

  function Reads(k: nat): seq<Call> {
    seq(k, _ => NextLine)
  }

  /** Calls that only read leave what LeftAfter says, and each returns the line next to come. */
  lemma {:induction false} OnlyReads(p: Text, c: byte, k: nat)
    ensures Left(p, Reads(k), c) == LeftAfter(p, c, k) && |Results(p, Reads(k), c)| == k
    ensures forall n :: 0 <= n < k ==> Results(p, Reads(k), c)[n] == Line(LeftAfter(p, c, n), c)
  {
    hide Line;
    if k > 0 {
      assert Reads(k)[..k - 1] == Reads(k - 1);
      OnlyReads(p, c, k - 1);
    }
  }

  lemma {:induction false} JoinedAppend(ps: seq<Text>, x: Text)
    ensures Joined(ps + [x]) == Joined(ps) + x
  {
    if ps == [] {
      assert [] + [x] == [x] && x + [] == [] + x;
    } else {
      assert (ps + [x])[1..] == ps[1..] + [x];
      JoinedAppend(ps[1..], x);
    }
  }

  /** No byte is lost and none returned twice: what came back and what is left is the stream and what
      was pushed back. */
  lemma {:induction false} CallsConserve(p: Text, calls: seq<Call>, c: byte)
    ensures multiset(Joined(Results(p, calls, c))) + multiset(Left(p, calls, c)) == multiset(p) + multiset(Pushed(calls))
    ensures |Joined(Results(p, calls, c))| + |Left(p, calls, c)| == |p| + |Pushed(calls)|
  {
    if calls == [] {
      JoinedNone();
    } else {
      hide *;
      var before, call := calls[..|calls| - 1], calls[|calls| - 1];
      CallsConserve(p, before, c);
      if call.NextLine? {
        LastRead(p, calls, c);
      } else {
        LastPush(p, calls, c);
        AddBoth(multiset(Joined(Results(p, before, c))), multiset(Left(p, before, c)),
                multiset(p), multiset(Pushed(before)), multiset(call.text));
      }
    }
  }

  lemma AddBoth(a: multiset<byte>, b: multiset<byte>, c: multiset<byte>, d: multiset<byte>, x: multiset<byte>)
    requires a + b == c + d
    ensures a + (b + x) == c + (d + x)
  {
    assert a + (b + x) == (a + b) + x;
    assert c + (d + x) == (c + d) + x;
  }

  lemma LastCall(p: Text, calls: seq<Call>, c: byte)
    requires calls != []
    ensures var before, call := calls[..|calls| - 1], calls[|calls| - 1];
      && Left(p, calls, c) == After(Left(p, before, c), call, c)
      && Results(p, calls, c) == Results(p, before, c) + Returned(Left(p, before, c), call, c)
      && Pushed(calls) == Pushed(before) + Given(call)
  {
    hide After, Returned, Given;
  }

  /** The last call moves a line from what is left to what came back. */
  lemma LastRead(p: Text, calls: seq<Call>, c: byte)
    requires calls != [] && calls[|calls| - 1].NextLine?
    ensures var before := calls[..|calls| - 1]; var q, q' := Left(p, before, c), Left(p, calls, c);
      var r, r' := Joined(Results(p, before, c)), Joined(Results(p, calls, c));
      && multiset(r') + multiset(q') == multiset(r) + multiset(q) && |r'| + |q'| == |r| + |q|
      && Pushed(calls) == Pushed(before)
  {
    hide Line, Left, Results, Joined, Pushed;
    var before := calls[..|calls| - 1];
    LastCall(p, calls, c);
    var q := Left(p, before, c);
    JoinedAppend(Results(p, before, c), Line(q, c));
    ConserveRead(Joined(Results(p, before, c)), q, Line(q, c));
    assert Pushed(before) + [] == Pushed(before);
  }

  /** Or it adds what is pushed back. */
  lemma LastPush(p: Text, calls: seq<Call>, c: byte)
    requires calls != [] && calls[|calls| - 1].PushBack?
    ensures var before, t := calls[..|calls| - 1], calls[|calls| - 1].text; var q, q' := Left(p, before, c), Left(p, calls, c);
      && multiset(q') == multiset(q) + multiset(t) && |q'| == |q| + |t| && Results(p, calls, c) == Results(p, before, c)
      && multiset(Pushed(calls)) == multiset(Pushed(before)) + multiset(t) && |Pushed(calls)| == |Pushed(before)| + |t|
  {
    hide Line, Left, Results, Joined, Pushed;
    var before, t := calls[..|calls| - 1], calls[|calls| - 1].text;
    LastCall(p, calls, c);
    assert Results(p, before, c) + [] == Results(p, before, c);
    ConservePush(Left(p, before, c), t);
    ConservePush(t, Pushed(before));
  }

  lemma JoinedNone()
    ensures Joined([]) == []
  {
  }

  lemma ConserveRead(done: Text, q: Text, l: Text)
    requires |l| <= |q| && l == q[..|l|]
    ensures multiset(done + l) + multiset(q[|l|..]) == multiset(done) + multiset(q)
    ensures |done + l| + |q[|l|..]| == |done| + |q|
  {
    assert q == q[..|l|] + q[|l|..];
  }

  lemma ConservePush(q: Text, t: Text)
    ensures multiset(t + q) == multiset(q) + multiset(t) && |t + q| == |q| + |t|
  {
  }

  lemma {:induction false} PushedSoFar(calls: seq<Call>, i: nat)
    requires i <= |calls|
    ensures |Pushed(calls[..i])| <= |Pushed(calls)|
    decreases |calls|
  {
    if i < |calls| {
      var before := calls[..|calls| - 1];
      PushedSoFar(before, i);
      assert before[..i] == calls[..i];
    } else {
      assert calls[..i] == calls;
    }
  }

  method PushText(s: Stream, t: Text)
    requires s.Valid() && |t| + |s.Pending()| + 1 < SIZE_LIMIT
    modifies s.buff, s.buff.data
    ensures s.Valid() && s.Pending() == t + old(s.Pending())
    ensures s.buff.data == old(s.buff.data) || fresh(s.buff.data)
  {
    var block := new byte[|t|](i requires 0 <= i < |t| => t[i]);
    var v := View(block, 0, |t|);
    assert v.Text() == t;
    var ret := s.Unread(v);
  }

  /** Any sequence of calls, whatever the portions in which the source delivers. */
  method RunCalls(s: Stream, calls: seq<Call>, c: byte) returns (results: seq<Text>)
    requires s.Valid() && |s.Pending()| + |Pushed(calls)| + s.maxBuffSz + 2 < SIZE_LIMIT
    modifies s, s.buff, s.buff.data, s.reader
    ensures s.Valid() && results == Results(old(s.Pending()), calls, c)
    ensures s.Pending() == Left(old(s.Pending()), calls, c)
  {
    hide Line, Results, Left, Pushed;
    ghost var p := s.Pending();
    results := [];
    var i := 0;
    NoCalls(p, calls, c);
    while i < |calls|
      invariant s.buff.data == old(s.buff.data) || fresh(s.buff.data)
      invariant i <= |calls| && s.Valid() && s.maxBuffSz == old(s.maxBuffSz)
      invariant s.Pending() == Left(p, calls[..i], c) && results == Results(p, calls[..i], c)
    {
      OneCall(p, calls, i, c);
      if calls[i].NextLine? {
        var r := new BString.Sized(16);
        var ret := s.ReadLineFresh(r, c);
        results := results + [r.data[..r.slen]];
      } else {
        PushText(s, calls[i].text);
      }
      i := i + 1;
    }
    assert calls[..i] == calls;
  }

  lemma NoCalls(p: Text, calls: seq<Call>, c: byte)
    ensures Left(p, calls[..0], c) == p && Results(p, calls[..0], c) == []
  {
  }

  lemma OneCall(p: Text, calls: seq<Call>, i: nat, c: byte)
    requires i < |calls|
    ensures var q := Left(p, calls[..i], c);
      && |q| + |Given(calls[i])| <= |p| + |Pushed(calls)|
      && Left(p, calls[..i + 1], c) == After(q, calls[i], c)
      && Results(p, calls[..i + 1], c) == Results(p, calls[..i], c) + Returned(q, calls[i], c)
  {
    hide Line;
    var before := calls[..i];
    assert calls[..i + 1][..i] == before;
    CallsConserve(p, before, c);
    PushedSoFar(calls, i + 1);
    assert Pushed(calls[..i + 1]) == Pushed(before) + Given(calls[i]);
  }

  /** Lines are read until the stream reports its end. */
  method AllLines(s: Stream, c: byte) returns (lines: seq<Text>)
    requires s.Valid() && |s.Pending()| + s.maxBuffSz + 2 < SIZE_LIMIT
    modifies s, s.buff, s.buff.data, s.reader
    ensures s.Valid() && lines == Lines(old(s.Pending()), c) && s.Pending() == []
  {
    hide Line, Lines;
    ghost var p := s.Pending();
    lines := [];
    var r := new BString.Sized(16);
    assert [] + Lines(p, c) == Lines(p, c);
    var ret := OK;
    while ret == OK
      invariant s.buff.data == old(s.buff.data) || fresh(s.buff.data)
      invariant fresh(r) && fresh(r.data) && r.Valid() && s.Apart(r)
      invariant s.Valid() && s.maxBuffSz == old(s.maxBuffSz) && |s.Pending()| <= |p|
      invariant lines + Lines(s.Pending(), c) == Lines(p, c)
      invariant ret != OK ==> s.Pending() == []
      decreases ret == OK, |s.Pending()|
    {
      ghost var q := s.Pending();
      NextOfLines(q, c);
      ret := s.ReadLineFresh(r, c);
      if ret == OK {
        Regrouped(lines, [Line(q, c)], Lines(s.Pending(), c));
        lines := lines + [r.data[..r.slen]];
      }
    }
    NoLines(c);
    assert lines + [] == lines;
  }

  lemma NextOfLines(p: Text, c: byte)
    ensures p != [] ==> Line(p, c) != [] && Lines(p, c) == [Line(p, c)] + Lines(p[|Line(p, c)|..], c)
    ensures p == [] ==> Line(p, c) == []
  {
    if p != [] { LineEnds(p, c); }
  }

  lemma NoLines(c: byte)
    ensures Lines([], c) == []
  {
  }

  lemma Regrouped(a: seq<Text>, b: seq<Text>, c: seq<Text>)
    ensures a + b + c == a + (b + c)
  {
  }
}

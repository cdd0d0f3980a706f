/** The uuencoder, and the decoder as a stream: lines are decoded as they come in, in portions of the
    input that have nothing to do with the lines, and served in portions of at most the size asked
    for. */
module UuStream {
  import opened BString
  import opened BStream
  import opened Sextets
  import opened UuCodec

  // ---------- the encoder ----------

  method PutGroup(out: BString, c0: byte, c1: byte, c2: byte)
    requires out.Valid() && out.slen + 8 < SIZE_LIMIT
    modifies out, out.data
    ensures out.Valid() && out.Text() == old(out.Text()) + EncGroup(c0, c1, c2)
    ensures out.data == old(out.data) || fresh(out.data)
  {
    hide Enc, EncGroup;
    ghost var t := out.Text();
    var g := EncGroup(c0, c1, c2);
    var ret := out.ConcatChar(g[0]);
    ret := out.ConcatChar(g[1]);
    ret := out.ConcatChar(g[2]);
    ret := out.ConcatChar(g[3]);
    FourMore(t, g);
  }

  lemma FourMore(t: Text, g: Text)
    requires |g| == 4
    ensures t + [g[0]] + [g[1]] + [g[2]] + [g[3]] == t + g
  {
  }

  /** The bytes of the line from i up to jm, in groups of three. */
  method PutGroups(out: BString, src: View, i: nat, jm: nat)
    requires out.Valid() && src.Valid() && src.block != out.data && i < jm <= src.len
    requires jm == src.len || jm - i == MAX_LINE
    requires out.slen + 2 * MAX_LINE + 16 < SIZE_LIMIT && jm - i <= MAX_LINE
    modifies out, out.data
    ensures out.Valid() && out.Text() == old(out.Text()) + EncGroups(src.Text()[i..jm])
    ensures out.data == old(out.data) || fresh(out.data)
  {
    hide EncGroup, EncGroups;
    ghost var s, t := src.Text(), out.Text();
    ghost var goal := t + EncGroups(s[i..jm]);
    var j := i;
    ghost var g := 0;
    while j < jm
      invariant out.Valid() && (out.data == old(out.data) || fresh(out.data)) && src.block != out.data
      invariant j == i + 3 * g && j < jm + 3 && src.Text() == s && out.slen == |t| + 4 * g
      invariant out.Text() + EncGroups(Rest(s, j, jm)) == goal
    {
      GroupAt(s, j, jm);
      ghost var done := out.Text();
      assert s[j] == src.block[src.start + j];
      var c1 := At(src, j + 1);
      var c2 := At(src, j + 2);
      PutGroup(out, src.block[src.start + j], c1, c2);
      Regroup(done, EncGroup(s[j], ByteAt(s, j + 1), ByteAt(s, j + 2)), EncGroups(Rest(s, j + 3, jm)));
      j := j + 3;
      g := g + 1;
    }
    NoGroupsLeft(s, j, jm);
    assert out.Text() + [] == out.Text();
  }

  /** `bchar` */
  method At(src: View, i: nat) returns (c: byte)
    requires src.Valid()
    ensures c == ByteAt(src.Text(), i)
  {
    c := if i < src.len then src.block[src.start + i] else 0;
  }

  function Rest(s: Text, j: nat, jm: nat): Text
    requires jm <= |s|
  {
    if j < jm then s[j..jm] else []
  }

  lemma GroupAt(s: Text, j: nat, jm: nat)
    requires j < jm <= |s| && (jm == |s| || jm - j >= 3)
    ensures EncGroups(Rest(s, j, jm)) == EncGroup(s[j], ByteAt(s, j + 1), ByteAt(s, j + 2)) + EncGroups(Rest(s, j + 3, jm))
  {
    hide EncGroup, EncGroups;
    var x := s[j..jm];
    FirstGroup(x);
    assert FromThird(x) == Rest(s, j + 3, jm);
  }

  lemma NoGroupsLeft(s: Text, j: nat, jm: nat)
    requires jm <= |s| && j >= jm
    ensures EncGroups(Rest(s, j, jm)) == []
  {
  }

  /** `bUuEncode` */
  method UuEncode(src: View) returns (out: BString)
    requires src.Valid() && |Encoded(src.Text())| + 1024 < SIZE_LIMIT
    ensures fresh(out) && out.Valid() && out.Text() == Encoded(src.Text())
  {
    hide Encoded, EncLine;
    ghost var s := src.Text();
    out := new BString();
    var i := 0;
    assert s[0..] == s && [] + Encoded(s) == Encoded(s);
    while i < src.len
      invariant fresh(out) && out.Valid() && fresh(out.data)
      invariant i <= src.len && out.Text() + Encoded(s[i..]) == Encoded(s)
    {
      var jm := if i + MAX_LINE > src.len then src.len else i + MAX_LINE;
      ghost var done := out.Text();
      LineAt(s, i, jm);
      PutLine(out, src, i, jm);
      Regroup(done, EncLine(s[i..jm]) + CRLF, Encoded(s[jm..]));
      i := jm;
    }
    assert s[i..] == [];
    NothingEncoded();
    assert out.Text() + [] == out.Text();
  }

  method PutLine(out: BString, src: View, i: nat, jm: nat)
    requires out.Valid() && src.Valid() && src.block != out.data && i < jm <= src.len
    requires (jm == src.len || jm - i == MAX_LINE) && jm - i <= MAX_LINE && out.slen + 1000 < SIZE_LIMIT
    modifies out, out.data
    ensures out.Valid() && out.Text() == old(out.Text()) + (EncLine(src.Text()[i..jm]) + CRLF)
    ensures out.data == old(out.data) || fresh(out.data)
  {
    hide EncGroups, LengthChar;
    ghost var s, t := src.Text(), out.Text();
    ghost var x := s[i..jm];
    EncGroupsSize(x);
    var ret := out.ConcatChar(LengthChar(jm - i));
    assert src.Text() == s;
    PutGroups(out, src, i, jm);
    PutCrlf(out);
    assert t + [LengthChar(|x|)] + EncGroups(x) + CRLF == t + (EncLine(x) + CRLF);
  }

  method PutCrlf(out: BString)
    requires out.Valid() && out.slen + 8 < SIZE_LIMIT
    modifies out, out.data
    ensures out.Valid() && out.Text() == old(out.Text()) + CRLF
    ensures out.data == old(out.data) || fresh(out.data)
  {
    var ret := out.ConcatChar(0x0D);
    ret := out.ConcatChar(0x0A);
  }

  lemma {:induction false} EncGroupsSize(x: Text)
    ensures |EncGroups(x)| <= 4 * |x|
    decreases |x|
  {
    if x != [] { EncGroupsSize(FromThird(x)); }
  }

  lemma LineAt(s: Text, i: nat, jm: nat)
    requires i < |s| && jm == (if i + MAX_LINE > |s| then |s| else i + MAX_LINE)
    ensures Encoded(s[i..]) == EncLine(s[i..jm]) + CRLF + Encoded(s[jm..])
  {
    hide EncLine;
    assert s[i..][..jm - i] == s[i..jm] && s[i..][jm - i..] == s[jm..];
  }

  // ---------- the decoder ----------

  /** What a decoder with f to be served and the unfinished line t gives when it is asked for size
      bytes: with fewer than that left it comes to the end of the input and decodes the unfinished
      line, which stays where it is. */
  function Supply(f: Text, t: Text, size: nat): Text {
    if |f| > size then f else f + DecLine(t).bytes
  }

  function Least(a: nat, b: nat): nat {
    if a <= b then a else b
  }

  class Decoder {
    const src: BString
    const dst: BString
    const inp: Stream
    var bad: nat

    ghost predicate Valid()
      reads this, src, dst, inp, inp.buff, inp.reader
    {
      && src.Valid() && dst.Valid() && inp.Valid() && inp.Apart(src) && inp.Apart(dst)
      && src != dst && src.data != dst.data
    }

    /** The input not yet decoded. */
    ghost function Input(): Text
      requires Valid()
      reads this, src, src.data, dst, inp, inp.buff, inp.buff.data, inp.reader
    {
      src.Text() + inp.Pending()
    }

    ghost function Unread(): nat
      requires Valid()
      reads this, src, src.data, dst, inp, inp.buff, inp.buff.data, inp.reader
    {
      |inp.Pending()|
    }

    /** What is still to be served. */
    ghost function Future(): Text
      requires Valid()
      reads this, src, src.data, dst, dst.data, inp, inp.buff, inp.buff.data, inp.reader
    {
      dst.Text() + Decoded(Input())
    }

    /** `bsUuDecode` */
    constructor (input: Stream)
      requires input.Valid()
      ensures Valid() && fresh(src) && fresh(dst) && fresh(src.data) && fresh(dst.data) && inp == input && bad == 0
      ensures Input() == input.Pending() && dst.Text() == []
    {
      src := new BString();
      dst := new BString();
      inp := input;
      bad := 0;
    }

    /** The octets of a group join the output. */
    method Append(bytes: Text)
      requires dst.Valid() && 1 <= |bytes| <= 3 && dst.slen + 8 < SIZE_LIMIT
      modifies dst, dst.data
      ensures dst.Valid() && (dst.data == old(dst.data) || fresh(dst.data))
      ensures dst.Text() == old(dst.Text()) + bytes
    {
      var ret;
      if |bytes| == 1 {
        ret := dst.ConcatChar(bytes[0]);
      } else {
        var octets := new byte[3];
        forall i | 0 <= i < |bytes| {
          octets[i] := bytes[i];
        }
        assert octets[0..|bytes|] == bytes;
        ret := dst.ConcatBlock(View(octets, 0, |bytes|));
      }
    }

    /** `bchare` */
    method ReadChar(line: View, i: nat) returns (d: byte)
      requires line.Valid()
      ensures d == CharAt(line.Text(), i)
    {
      d := if i < line.len then line.block[line.start + i] else 0x1F;
    }

    /** `bUuDecLine` */
    method DecodeLine(line: View)
      requires dst.Valid() && line.Valid() && line.block != dst.data && dst.slen + 100 < SIZE_LIMIT
      modifies this`bad, dst, dst.data
      ensures dst.Valid() && (dst.data == old(dst.data) || fresh(dst.data))
      ensures dst.Text() == old(dst.Text()) + DecLine(line.Text()).bytes
      ensures bad == old(bad) + (if DecLine(line.Text()).bad then 1 else 0)
    {
      hide DecGroups;
      ghost var s, t := line.Text(), dst.Text();
      assert t + [] == t;
      if line.len == 0 { return; }
      assert s[0] == line.block[line.start];
      var llen := DecLength(line.block[line.start]);
      if llen < 0 || llen > MAX_LINE {
        bad := bad + 1;
        return;
      }
      var otlen := dst.slen;
      var spoilt, wrong;
      ghost var done;
      spoilt, wrong, done := DecodeGroups(line, llen);
      if spoilt || dst.slen < otlen + llen {
        ghost var longer := dst.Text();
        dst.slen := otlen;
        assert dst.Text() == longer[..otlen];
        bad := bad + 1;
      } else if wrong {
        bad := bad + 1;
      }
    }

    /** The groups of a line of n bytes. What was decoded of a spoiled line is still in the output. */
    method DecodeGroups(line: View, n: nat) returns (spoilt: bool, wrong: bool, ghost done: Text)
      requires dst.Valid() && line.Valid() && line.block != dst.data && n <= MAX_LINE && dst.slen + 100 < SIZE_LIMIT
      modifies dst, dst.data
      ensures dst.Valid() && (dst.data == old(dst.data) || fresh(dst.data)) && line.Text() == old(line.Text())
      ensures dst.Text() == old(dst.Text()) + done
      ensures DecGroups(line.Text(), 1, n) == if spoilt then Spoiled else Got(done, wrong)
    {
      hide DecGroups, DecGroup, Before;
      ghost var s, t := line.Text(), dst.Text();
      var goal, i := dst.slen + n, 1;
      wrong, done := false, [];
      Nothing(t, t);
      BeforeNothing(DecGroups(s, 1, n));
      while i < line.len && dst.slen < goal
        invariant i >= 1 && dst.Valid() && (dst.data == old(dst.data) || fresh(dst.data)) && line.block != dst.data
        invariant line.Text() == s && dst.Text() == t + done && |done| <= n && goal == |t| + n
        invariant Before(done, wrong, DecGroups(s, i, n - |done|)) == DecGroups(s, 1, n)
        decreases line.len - i
      {
        var d0 := ReadChar(line, i);
        var d1 := ReadChar(line, i + 1);
        var d2 := ReadChar(line, i + 2);
        var d3 := ReadChar(line, i + 3);
        var g := DecGroup(d0, d1, d2, d3, goal - dst.slen);
        OneGroup(s, i, n - |done|, done, wrong);
        if g.Bad? { return true, wrong, done; }
        Append(g.bytes);
        Regroup(t, done, g.bytes);
        wrong, done := wrong || g.wrong, done + g.bytes;
        if g.Last? { return false, wrong, done; }
        i := i + 4;
      }
      NoneLeft(s, i, n - |done|, done, wrong);
      spoilt := false;
    }

    /** The position of the next line end, or ERR. */
    method FindEol(pos: nat) returns (r: int)
      requires src.Valid() && pos <= src.slen
      ensures var e := Eol(src.Text()[pos..]); r == if pos + e == src.slen then ERR else pos + e
    {
      var i := pos;
      while i < src.slen
        invariant pos <= i <= src.slen && forall k :: pos <= k < i ==> !IsEol(src.data[k])
      {
        if IsEol(src.data[i]) {
          EolIs(src.Text()[pos..], i - pos);
          return i;
        }
        i := i + 1;
      }
      NoEol(src.Text()[pos..]);
      r := ERR;
    }

    /** All that matters of the state to the one who reads: f is to be served, t is the unfinished
        line, and b lines will have been bad. */
    ghost predicate Promises(f: Text, t: Text, b: nat)
      reads this, src, src.data, dst, dst.data, inp, inp.buff, inp.buff.data, inp.reader
    {
      Valid() && Future() == f && Unfinished(Input()) == t && bad + BadLines(Input()) == b
    }

    ghost predicate Roomy(size: nat)
      requires Valid()
      reads this, src, src.data, dst, inp, inp.buff, inp.buff.data, inp.reader
    {
      size + 100 < SIZE_LIMIT && |Input()| + inp.maxBuffSz + 2 < SIZE_LIMIT
    }

    /** The line of the source buffer from ol up to l joins the output. */
    method TakeLine(ol: nat, l: nat, ghost f: Text, ghost t: Text, ghost b: nat)
      requires Valid() && ol <= l < src.slen && l == ol + Eol(src.Text()[ol..]) && dst.slen + 100 < SIZE_LIMIT
      requires AheadFrom(ol, f, t, b)
      modifies this`bad, dst, dst.data
      ensures Valid() && (dst.data == old(dst.data) || fresh(dst.data)) && AheadFrom(l + 1, f, t, b)
      ensures dst.slen <= old(dst.slen) + MAX_LINE
    {
      hide DecLine, Decoded, BadLines, Unfinished;
      ghost var s, q, d := src.Text(), inp.Pending(), dst.Text();
      OneLine(s, ol, l, q);
      LineBytes(s[ol..l]);
      if l > ol {
        var line := View(src.data, ol, l - ol);
        assert line.Text() == s[ol..l];
        DecodeLine(line);
      } else {
        EmptyLine();
        assert d + [] == d && s[ol..l] == [];
      }
      assert src.Text() == s && inp.Pending() == q;
      Regroup(d, DecLine(s[ol..l]).bytes, Decoded(s[l + 1..] + q));
    }

    /** The promise, when the source buffer up to ol has been decoded already. */
    ghost predicate AheadFrom(ol: nat, f: Text, t: Text, b: nat)
      requires Valid()
      reads this, src, src.data, dst, dst.data, inp, inp.buff, inp.buff.data, inp.reader
    {
      && ol <= src.slen
      && var p := src.Text()[ol..] + inp.Pending();
         dst.Text() + Decoded(p) == f && Unfinished(p) == t && bad + BadLines(p) == b
    }

    /** The finished lines of the source buffer are decoded, until there is more than asked for. */
    method DecodeLines(first: nat, size: nat, ghost f: Text, ghost t: Text, ghost b: nat)
      requires Promises(f, t, b) && Roomy(size) && dst.slen <= size && first < src.slen && first == Eol(src.Text())
      modifies this`bad, src`slen, src.data, dst, dst.data
      ensures Valid() && Promises(f, t, b) && Roomy(size) && src.slen < old(src.slen)
      ensures dst.data == old(dst.data) || fresh(dst.data)
      ensures src.data == old(src.data) && inp.Pending() == old(inp.Pending())
    {
      hide AheadFrom, Eol;
      ghost var s, q := src.Text(), inp.Pending();
      var l: int := first;
      var ol: nat := 0;
      StartAhead(f, t, b);
      assert s[0..] == s;
      while l != ERR
        invariant Valid() && src.Text() == s && inp.Pending() == q && src.data == old(src.data)
        invariant dst.data == old(dst.data) || fresh(dst.data)
        invariant ol <= |s| && AheadFrom(ol, f, t, b)
        invariant l == ERR ==> ol > 0
        invariant l != ERR ==> ol <= l < |s| && l == ol + Eol(s[ol..]) && dst.slen <= size
        decreases l != ERR, |s| - ol
      {
        TakeLine(ol, l, f, t, b);
        ol := l + 1;
        if dst.slen > size { break; }
        l := FindEol(ol);
      }
      EndAhead(ol, f, t, b);
    }

    lemma StartAhead(f: Text, t: Text, b: nat)
      requires Promises(f, t, b)
      ensures AheadFrom(0, f, t, b)
    {
      assert src.Text()[0..] == src.Text();
    }

    /** What was decoded is deleted from the source buffer. */
    method EndAhead(ol: nat, ghost f: Text, ghost t: Text, ghost b: nat)
      requires Valid() && AheadFrom(ol, f, t, b)
      modifies src`slen, src.data
      ensures Promises(f, t, b) && src.slen == old(src.slen) - ol && src.data == old(src.data)
    {
      hide Decoded, Unfinished, BadLines;
      ghost var s := src.Text();
      var ret := src.Delete(0, ol);
      assert Without(s, 0, ol) == s[ol..];
    }

    /** More of the input comes into the source buffer. */
    method ReadMore(ghost f: Text, ghost t: Text, ghost b: nat, size: nat) returns (ret: int)
      requires Promises(f, t, b) && Roomy(size)
      modifies src, src.data, inp, inp.buff, inp.buff.data, inp.reader
      ensures Valid() && Promises(f, t, b) && Roomy(size) && Input() == old(Input()) && dst.slen == old(dst.slen)
      ensures src.data == old(src.data) || fresh(src.data)
      ensures inp.buff.data == old(inp.buff.data) || fresh(inp.buff.data)
      ensures if ret == ERR then inp.Pending() == [] && src.Text() == old(src.Text())
              else |inp.Pending()| < |old(inp.Pending())|
    {
      ghost var s, p, d := src.Text(), inp.Pending(), dst.Text();
      ret := inp.ReadBytes(src, inp.maxBuffSz);
      ghost var k := src.slen - |s|;
      Parts(s, p, k);
      assert dst.Text() == d;
    }

    /** The input is at its end: the unfinished line is decoded, and stays in the source buffer. */
    method DecodeRest(ghost f: Text, ghost t: Text, ghost b: nat, size: nat)
      requires Promises(f, t, b) && Roomy(size) && inp.Pending() == [] && Eol(src.Text()) == src.slen && dst.slen <= size
      modifies this`bad, dst, dst.data
      ensures Promises(f + DecLine(t).bytes, t, b + (if DecLine(t).bad then 1 else 0))
      ensures Decoded(Input()) == [] && BadLines(Input()) == 0 && |f| <= size && (dst.data == old(dst.data) || fresh(dst.data))
    {
      hide Decoded, BadLines, Unfinished, DecLine;
      ghost var s := src.Text();
      assert s + [] == s && Input() == s;
      OnlyUnfinished(s);
      assert dst.Text() + [] == dst.Text();
      DecodeLine(src.All());
    }

    /** The first n bytes of the output are handed over. */
    method Serve(out: array<byte>, n: nat, size: nat, ghost f: Text, ghost t: Text, ghost b: nat)
      requires Promises(f, t, b) && Roomy(size) && n <= dst.slen && n <= out.Length
      requires out != src.data && out != dst.data && out != inp.buff.data
      modifies out, dst`slen, dst.data
      ensures n <= old(dst.slen) <= |f| && Promises(f[n..], t, b) && out[..n] == f[..n] && dst.data == old(dst.data)
      ensures Valid() && Roomy(size) && Input() == old(Input())
    {
      hide Decoded, BadLines, Unfinished, Pasted;
      ghost var d, o, i := dst.Text(), out[..], Input();
      var part := View(dst.data, 0, n);
      assert part.Text() == d[..n];
      Copy(out, 0, part);
      PastedParts(o, 0, d[..n]);
      assert out[..n] == out[..][0..n];
      var ret := dst.Delete(0, n);
      assert Without(d, 0, n) == d[n..];
      assert Input() == i;
      DropJoined(d, Decoded(i), n);
    }

    /** `bsUuDecodePart` */
    method DecodePart(out: array<byte>, size: nat) returns (n: nat)
      requires Valid() && Roomy(size) && 0 < size <= out.Length
      requires out != src.data && out != dst.data && out != inp.buff.data
      modifies this`bad, src, src.data, dst, dst.data, inp, inp.buff, inp.buff.data, inp.reader, out
      ensures src.data == old(src.data) || fresh(src.data)
      ensures dst.data == old(dst.data) || fresh(dst.data)
      ensures inp.buff.data == old(inp.buff.data) || fresh(inp.buff.data)
      ensures var f, t := old(Future()), old(Unfinished(Input())); var d := Supply(f, t, size);
        && n == Least(size, |d|) && out[..n] == d[..n]
        && Promises(d[n..], t, old(bad + BadLines(Input())) + (if |f| <= size && DecLine(t).bad then 1 else 0))
        && Roomy(size) && (|f| <= size ==> BadLines(Input()) == 0)
    {
      hide *;
      ghost var f, t, b := Future(), Unfinished(Input()), bad + BadLines(Input());
      PromiseNow();
      var done := false;
      n := 0;
      while !done
        invariant Valid() && Roomy(size)
        invariant src.data == old(src.data) || fresh(src.data)
        invariant dst.data == old(dst.data) || fresh(dst.data)
        invariant inp.buff.data == old(inp.buff.data) || fresh(inp.buff.data)
        invariant out != src.data && out != dst.data && out != inp.buff.data
        invariant if done then Served(out, n, size, f, t, b) else Promises(f, t, b)
        decreases !done, |Input()|, Unread()
      {
        done, n := Round(out, size, f, t, b);
      }
      ServedMeans(out, n, size, f, t, b);
    }

    /** The request for size bytes was met: n of them are in out, and the rest is promised. */
    ghost predicate Served(out: array<byte>, n: nat, size: nat, f: Text, t: Text, b: nat)
      reads this, src, src.data, dst, dst.data, inp, inp.buff, inp.buff.data, inp.reader, out
    {
      var d := Supply(f, t, size);
      && n == Least(size, |d|) <= out.Length && out[..n] == d[..n]
      && Promises(d[n..], t, b + (if |f| <= size && DecLine(t).bad then 1 else 0))
      && (|f| <= size ==> BadLines(Input()) == 0)
    }

    lemma ServedMeans(out: array<byte>, n: nat, size: nat, f: Text, t: Text, b: nat)
      requires Served(out, n, size, f, t, b)
      ensures var d := Supply(f, t, size);
        && n == Least(size, |d|) <= out.Length && out[..n] == d[..n]
        && Promises(d[n..], t, b + (if |f| <= size && DecLine(t).bad then 1 else 0))
        && (|f| <= size ==> BadLines(Input()) == 0)
    {
    }

    /** Between two jumps: enough output is served, or lines are decoded, or more input is read, or the
        end of the input is reached. */
    method Round(out: array<byte>, size: nat, ghost f: Text, ghost t: Text, ghost b: nat) returns (done: bool, n: nat)
      requires Valid() && Promises(f, t, b) && Roomy(size) && size <= out.Length
      requires out != src.data && out != dst.data && out != inp.buff.data
      modifies this`bad, src, src.data, dst, dst.data, inp, inp.buff, inp.buff.data, inp.reader, out
      ensures src.data == old(src.data) || fresh(src.data)
      ensures dst.data == old(dst.data) || fresh(dst.data)
      ensures inp.buff.data == old(inp.buff.data) || fresh(inp.buff.data)
      ensures Valid() && Roomy(size)
      ensures if done then Served(out, n, size, f, t, b) else Promises(f, t, b)
      ensures done || |Input()| < |old(Input())| || (Input() == old(Input()) && Unread() < old(Unread()))
    {
      hide Promises, Roomy, DecLine, Decoded, BadLines, Unfinished, Eol, IsEol;
      if dst.slen > size {
        Serve(out, size, size, f, t, b);
        return true, size;
      }
      var l := FindEol(0);
      assert src.Text()[0..] == src.Text();
      if l != ERR {
        DecodeLines(l, size, f, t, b);
        return false, 0;
      }
      var ret := ReadMore(f, t, b, size);
      if ret != ERR { return false, 0; }
      done := true;
      n := AtTheEnd(out, size, f, t, b);
    }

    method AtTheEnd(out: array<byte>, size: nat, ghost f: Text, ghost t: Text, ghost b: nat) returns (n: nat)
      requires Promises(f, t, b) && Roomy(size) && inp.Pending() == [] && Eol(src.Text()) == src.slen && dst.slen <= size
      requires size <= out.Length && out != src.data && out != dst.data && out != inp.buff.data
      modifies this`bad, dst, dst.data, out
      ensures dst.data == old(dst.data) || fresh(dst.data)
      ensures Valid() && Roomy(size)
      ensures var d := Supply(f, t, size);
        && n == Least(size, |d|) && out[..n] == d[..n]
        && Promises(d[n..], t, b + (if |f| <= size && DecLine(t).bad then 1 else 0))
        && BadLines(Input()) == 0
    {
      DecodeRest(f, t, b, size);
      ghost var d, e := f + DecLine(t).bytes, b + (if DecLine(t).bad then 1 else 0);
      assert dst.Text() + [] == dst.Text();
      n := if dst.slen > size then size else dst.slen;
      Serve(out, n, size, d, t, e);
    }

    lemma PromiseNow()
      requires Valid()
      ensures Promises(Future(), Unfinished(Input()), bad + BadLines(Input()))
    {
    }
  }

  lemma OnlyUnfinished(s: Text)
    requires Eol(s) == |s|
    ensures Decoded(s) == [] && BadLines(s) == 0 && Unfinished(s) == s
  {
  }

  lemma Parts(s: Text, p: Text, k: nat)
    requires k <= |p|
    ensures s + p[..k] + p[k..] == s + p && (k == 0 ==> s + p[..k] == s)
  {
  }

  lemma LineBytes(s: Text)
    ensures |DecLine(s).bytes| <= MAX_LINE
  {
    if s != [] && 0 <= DecLength(s[0]) <= MAX_LINE { AtMostNeeded(s, 1, DecLength(s[0])); }
  }

  lemma {:induction false} AtMostNeeded(s: Text, i: nat, need: nat)
    ensures var g := DecGroups(s, i, need); g.Got? ==> |g.bytes| <= need
    decreases |s| - i
  {
    if i < |s| && need >= 3 { AtMostNeeded(s, i + 4, need - 3); }
  }

  /** The first line of what is still to be decoded. */
  lemma OneLine(s: Text, ol: nat, l: nat, q: Text)
    requires ol <= l < |s| && l == ol + Eol(s[ol..])
    ensures var p, r := s[ol..] + q, s[l + 1..] + q;
      && Decoded(p) == DecLine(s[ol..l]).bytes + Decoded(r) && Unfinished(p) == Unfinished(r)
      && BadLines(p) == (if DecLine(s[ol..l]).bad then 1 else 0) + BadLines(r)
  {
    hide *;
    EolParts(s, ol, l);
    LineFirst(s[ol..l], s[l], s[l + 1..] + q);
    FrontLine(s, ol, l, q);
  }

  lemma EolParts(s: Text, ol: nat, l: nat)
    requires ol <= l < |s| && l == ol + Eol(s[ol..])
    ensures IsEol(s[l]) && forall i :: 0 <= i < l - ol ==> !IsEol(s[ol..l][i])
  {
    var t := s[ol..];
    assert t[l - ol] == s[l];
    forall i | 0 <= i < l - ol ensures !IsEol(s[ol..l][i]) { assert s[ol..l][i] == t[i]; }
  }

  lemma FrontLine(s: Text, ol: nat, l: nat, q: Text)
    requires ol <= l < |s|
    ensures s[ol..] + q == s[ol..l] + [s[l]] + (s[l + 1..] + q)
  {
    assert s[ol..] == s[ol..l] + [s[l]] + s[l + 1..];
  }

  lemma BeforeNothing(g: Groups)
    ensures Before([], false, g) == g
  {
    if g.Got? { assert [] + g.bytes == g.bytes; }
  }

  lemma BeforeTwice(a: Text, b: bool, c: Text, d: bool, g: Groups)
    ensures Before(a, b, Before(c, d, g)) == Before(a + c, b || d, g)
    ensures Before(a, b, Got(c, d)) == Got(a + c, b || d)
  {
    if g.Got? { assert a + (c + g.bytes) == a + c + g.bytes; }
  }

  /** The groups found so far, and the next one. */
  lemma OneGroup(s: Text, i: nat, need: nat, done: Text, wrong: bool)
    requires i < |s| && need > 0
    ensures var g := DecGroup(CharAt(s, i), CharAt(s, i + 1), CharAt(s, i + 2), CharAt(s, i + 3), need);
      Before(done, wrong, DecGroups(s, i, need)) ==
        match g
        case Bad => Spoiled
        case Last(bytes, w) => Got(done + bytes, wrong || w)
        case Whole(bytes, w) => Before(done + bytes, wrong || w, DecGroups(s, i + 4, need - 3))
  {
    var g := DecGroup(CharAt(s, i), CharAt(s, i + 1), CharAt(s, i + 2), CharAt(s, i + 3), need);
    if g.Whole? { BeforeTwice(done, wrong, g.bytes, g.wrong, DecGroups(s, i + 4, need - 3)); }
  }

  lemma NoneLeft(s: Text, i: nat, need: nat, done: Text, wrong: bool)
    requires i >= |s| || need == 0
    ensures Before(done, wrong, DecGroups(s, i, need)) == Got(done, wrong)
  {
    assert done + [] == done;
  }

  // ---------- decoding a whole text ----------

  /** The lines `bUuDecodeEx` counts as bad. An unfinished bad line is looked at again in the call that
      finds nothing more to serve. */
  function CountedBad(p: Text): nat {
    BadLines(p) + (if !DecLine(Unfinished(p)).bad then 0 else if Decoded(p) == [] then 1 else 2)
  }

  /** n copies of u. */
  function Repeat(u: Text, n: nat): Text {
    if n == 0 then [] else u + Repeat(u, n - 1)
  }

  lemma {:induction false} RepeatLast(u: Text, n: nat)
    ensures Repeat(u, n + 1) == Repeat(u, n) + u
  {
    if n > 0 {
      RepeatLast(u, n - 1);
      assert u + (Repeat(u, n - 1) + u) == (u + Repeat(u, n - 1)) + u;
    } else {
      assert u + [] == [] + u;
    }
  }

  lemma {:induction false} RepeatNothing(n: nat)
    ensures Repeat([], n) == []
  {
    if n > 0 { RepeatNothing(n - 1); }
  }

  /** What a decoder that decodes p serves when the end of the input is met n times: every time the
      unfinished line joins. */
  function DecodedWith(p: Text, n: nat): Text {
    Decoded(p) + Repeat(DecLine(Unfinished(p)).bytes, n)
  }

  /** How far the reading loop has got: the bytes so far, and how often the end of the input was met. */
  ghost predicate ReadSoFar(got: Text, d: Decoder, p: Text, ends: nat)
    reads d, d.src, d.src.data, d.dst, d.dst.data, d.inp, d.inp.buff, d.inp.buff.data, d.inp.reader
  {
    d.Valid() && d.Roomy(1024) && Reading(got, d.Future(), d.Input(), d.bad, p, ends)
  }

  ghost predicate Reading(got: Text, f: Text, input: Text, bad: nat, p: Text, ends: nat) {
    && got + f == DecodedWith(p, ends) && Unfinished(input) == Unfinished(p)
    && bad + BadLines(input) == BadLines(p) + (if DecLine(Unfinished(p)).bad then ends else 0)
    && (DecLine(Unfinished(p)).bytes == [] ==>
          && (ends == 0 ==> got == [] || f != []) && (ends == 1 ==> got != [] && f == []) && ends <= 1)
    && (ends > 0 ==> BadLines(input) == 0 && |f| <= MAX_LINE)
  }

  /** With more than is asked for left, the end of the input is not met. */
  lemma ReadPlenty(got: Text, f: Text, input: Text, bad: nat, p: Text, ends: nat, input': Text, bad': nat)
    requires Reading(got, f, input, bad, p, ends) && |f| > 1024 && Unfinished(input') == Unfinished(p)
    requires bad' + BadLines(input') == bad + BadLines(input)
    ensures Reading(got + f[..1024], f[1024..], input', bad', p, ends)
  {
    hide DecodedWith;
    assert got + f[..1024] + f[1024..] == got + f;
  }

  /** Otherwise the unfinished line joins once more. */
  lemma ReadEnd(got: Text, f: Text, input: Text, bad: nat, p: Text, ends: nat, n: nat, input': Text, bad': nat)
    requires Reading(got, f, input, bad, p, ends) && |f| <= 1024 && Unfinished(input') == Unfinished(p)
    requires var d := f + DecLine(Unfinished(p)).bytes; 0 < n == Least(1024, |d|)
    requires BadLines(input') == 0
    requires bad' + BadLines(input') == bad + BadLines(input) + (if DecLine(Unfinished(p)).bad then 1 else 0)
    ensures var d := f + DecLine(Unfinished(p)).bytes; Reading(got + d[..n], d[n..], input', bad', p, ends + 1)
  {
    hide Decoded, DecLine, Unfinished, BadLines;
    var u := DecLine(Unfinished(p)).bytes;
    LineBytes(Unfinished(p));
    var d := f + u;
    RepeatLast(u, ends);
    assert got + d[..n] + d[n..] == got + d;
    JoinLast(got, f, Decoded(p), Repeat(u, ends), u);
    if u == [] { assert d == f; }
  }

  lemma JoinLast(got: Text, f: Text, a: Text, b: Text, u: Text)
    requires got + f == a + b
    ensures got + (f + u) == a + (b + u)
  {
    assert got + (f + u) == (got + f) + u;
    assert a + (b + u) == (a + b) + u;
  }

  lemma ReadNothing(got: Text, f: Text, input: Text, bad: nat, p: Text, ends: nat, input': Text, bad': nat)
    requires Reading(got, f, input, bad, p, ends) && f + DecLine(Unfinished(p)).bytes == []
    requires bad' + BadLines(input') == bad + BadLines(input) + (if DecLine(Unfinished(p)).bad then 1 else 0)
    requires BadLines(input') == 0
    ensures got == Decoded(p) && bad' == CountedBad(p) && DecLine(Unfinished(p)).bytes == []
  {
    hide Decoded, DecLine, Unfinished, BadLines;
    RepeatNothing(ends);
    assert got + [] == got && Decoded(p) + [] == Decoded(p);
  }

  /** The bad lines of p, and its unfinished line once more for every time the end was met. */
  function BadWith(p: Text, n: nat): nat {
    BadLines(p) + (if DecLine(Unfinished(p)).bad then n else 0)
  }

  /** What the calls have brought in is a beginning of what there is to be served, and so many bad lines
      were counted: all of them once the end was met. */
  ghost predicate Beginning(got: Text, bad: nat, p: Text) {
    exists n: nat :: got <= DecodedWith(p, n) && bad <= BadWith(p, n) && (n > 0 ==> bad == BadWith(p, n))
  }

  /** The buffer and the result share nothing with the decoder. */
  ghost predicate Clear(d: Decoder, out: array<byte>, res: BString)
    reads d, d.src, d.dst, d.inp, d.inp.buff, res
  {
    && out !in {d.src.data, d.dst.data, d.inp.buff.data, res.data}
    && res !in {d.src, d.dst, d.inp.buff} && res.data !in {d.src.data, d.dst.data, d.inp.buff.data}
  }

  ghost predicate AllRead(got: Text, bad: nat, p: Text) {
    got == Decoded(p) && bad == CountedBad(p) && DecLine(Unfinished(p)).bytes == []
  }

  /** No memory for the last portion x. */
  ghost predicate Full(got: Text, bad: nat, p: Text, limit: nat) {
    && Beginning(got, bad, p) && |got| <= limit < |got| + 1024
    && (DecLine(Unfinished(p)).bytes == [] ==> limit < |Decoded(p)|)
  }

  lemma FullNow(got: Text, x: Text, f: Text, input: Text, bad: nat, p: Text, ends: nat, limit: nat)
    requires Reading(got + x, f, input, bad, p, ends) && |x| <= 1024 && |got| <= limit < |got| + |x|
    ensures Full(got, bad, p, limit)
  {
    hide Decoded, DecLine, Unfinished, BadLines;
    assert got <= DecodedWith(p, ends) by {
      assert got + x + f == got + (x + f);
    }
    assert bad <= BadWith(p, ends) && (ends > 0 ==> bad == BadWith(p, ends));
    if DecLine(Unfinished(p)).bytes == [] { RepeatNothing(ends); }
  }

  /** One call of the read function and one `bconcat`. Without memory for more than `limit` bytes the
      second fails. */
  method ReadPart(d: Decoder, out: array<byte>, res: BString, limit: nat, ghost p: Text, ghost ends: nat)
    returns (n: nat, full: bool, ghost ends': nat)
    requires res.Valid() && ReadSoFar(res.Text(), d, p, ends) && Clear(d, out, res) && out.Length >= 1024
    requires res.slen <= limit && limit + 2 < SIZE_LIMIT
    modifies d`bad, d.src, d.src.data, d.dst, d.dst.data, d.inp, d.inp.buff, d.inp.buff.data, d.inp.reader
    modifies out, res, res.data
    ensures d.src.data == old(d.src.data) || fresh(d.src.data)
    ensures d.dst.data == old(d.dst.data) || fresh(d.dst.data)
    ensures d.inp.buff.data == old(d.inp.buff.data) || fresh(d.inp.buff.data)
    ensures res.data == old(res.data) || fresh(res.data)
    ensures d.Valid() && res.Valid() && Clear(d, out, res) && res.slen <= limit
    ensures full ==> Full(res.Text(), d.bad, p, limit)
    ensures !full && n > 0 ==> ReadSoFar(res.Text(), d, p, ends') && old(res.slen) < res.slen
    ensures !full && n == 0 ==> AllRead(res.Text(), d.bad, p)
  {
    hide Reading, Decoded, BadLines, Unfinished, DecLine, CountedBad, DecodedWith, Full, AllRead;
    ghost var got, f, input, bad := res.Text(), d.Future(), d.Input(), d.bad;
    SameUnfinished(got, f, input, bad, p, ends);
    n := d.DecodePart(out, 1024);
    assert res.Text() == got;
    full := false;
    ghost var f', i' := d.Future(), d.Input();
    ends' := ReadOn(got, f, input, bad, p, ends, n, out[..n], f', i', d.bad);
    if n == 0 { return; }
    if res.slen + n > limit {
      full := true;
      FullNow(got, out[..n], f', i', d.bad, p, ends', limit);
      return;
    }
    var part := View(out, 0, n);
    assert part.Text() == out[..n];
    var ret := res.Concat(part);
    assert d.Input() == i' && d.Future() == f';
  }

  lemma SameUnfinished(got: Text, f: Text, input: Text, bad: nat, p: Text, ends: nat)
    requires Reading(got, f, input, bad, p, ends)
    ensures Unfinished(input) == Unfinished(p)
  {
  }

  /** One more portion x. */
  lemma ReadOn(got: Text, f: Text, input: Text, bad: nat, p: Text, ends: nat, n: nat, x: Text, f': Text, input': Text, bad': nat)
    returns (ends': nat)
    requires Reading(got, f, input, bad, p, ends) && Unfinished(input') == Unfinished(p)
    requires var d := Supply(f, Unfinished(p), 1024); n == Least(1024, |d|) && x == d[..n] && f' == d[n..]
    requires var last := |f| <= 1024 && DecLine(Unfinished(p)).bad;
             bad' + BadLines(input') == bad + BadLines(input) + (if last then 1 else 0)
    requires |f| <= 1024 ==> BadLines(input') == 0
    ensures n > 0 ==> Reading(got + x, f', input', bad', p, ends')
    ensures n == 0 ==> AllRead(got, bad', p)
  {
    hide Reading, Decoded, DecLine, Unfinished, BadLines, CountedBad;
    ends' := ends;
    if |f| > 1024 {
      ReadPlenty(got, f, input, bad, p, ends, input', bad');
    } else if n > 0 {
      ReadEnd(got, f, input, bad, p, ends, n, input', bad');
      ends' := ends + 1;
    } else {
      ReadNothing(got, f, input, bad, p, ends, input', bad');
    }
  }

  /** `bUuDecodeEx`, when there is no memory for a string of more than `limit` bytes. A text whose
      unfinished last line decodes to bytes is never read to its end: that line is served again until a
      `bconcat` fails. */
  method UuDecodeEx(src: View, limit: nat) returns (b: BString?, badlines: nat)
    requires src.Valid() && |src.Text()| + 2048 < SIZE_LIMIT && 1024 <= limit && limit + 2 < SIZE_LIMIT
    ensures b != null ==> fresh(b) && b.Valid()
    ensures var p := src.Text();
      if DecLine(Unfinished(p)).bytes == [] && |Decoded(p)| <= limit then
        && (b == null <==> Decoded(p) == [])
        && (b != null ==> b.Text() == Decoded(p))
        && badlines == CountedBad(p)
      else
        b != null && b.slen <= limit < b.slen + 1024 && Beginning(b.Text(), badlines, p)
  {
    hide Decoded, BadLines, Unfinished, DecLine, CountedBad, ReadSoFar, SnapUpSize, Beginning;
    ghost var p := src.Text();
    var d := OpenDecoder(src);
    var res := new BString.Sized(256);
    SnapLeavesRoom(1025);
    var out := new byte[SnapUpSize(1025)];
    assert ReadSoFar(res.Text(), d, p, 0);
    var full := ReadAll(d, out, res, limit, p);
    badlines := d.bad;
    b := if res.slen == 0 then null else res;
  }

  /** A decoding stream on a stream by reference on the text. */
  method OpenDecoder(src: View) returns (d: Decoder)
    requires src.Valid() && |src.Text()| + 2048 < SIZE_LIMIT
    ensures fresh(d) && fresh(d.src) && fresh(d.dst) && fresh(d.inp) && fresh(d.inp.buff) && fresh(d.inp.reader)
    ensures fresh(d.src.data) && fresh(d.dst.data) && fresh(d.inp.buff.data)
    ensures ReadSoFar([], d, src.Text(), 0)
  {
    hide Decoded, BadLines, Unfinished, DecLine;
    ghost var p := src.Text();
    var reader := new Reader(src.block[src.start..src.start + src.len]);
    var inp := new Stream(reader);
    d := new Decoder(inp);
    assert d.Input() == p;
    StartReading(p, d.Input());
    assert [] + Decoded(p) == Decoded(p);
  }

  lemma StartReading(p: Text, input: Text)
    requires input == p
    ensures Reading([], Decoded(p), input, 0, p, 0)
  {
    hide Decoded, DecLine, Unfinished, BadLines;
    assert [] + Decoded(p) == Decoded(p) == Decoded(p) + [];
  }

  /** The reading loop of `bsread` on the decoding stream. */
  method ReadAll(d: Decoder, out: array<byte>, res: BString, limit: nat, ghost p: Text) returns (full: bool)
    requires res.Valid() && ReadSoFar(res.Text(), d, p, 0) && Clear(d, out, res) && out.Length >= 1024
    requires res.slen <= limit && limit + 2 < SIZE_LIMIT
    modifies d`bad, d.src, d.src.data, d.dst, d.dst.data, d.inp, d.inp.buff, d.inp.buff.data, d.inp.reader
    modifies out, res, res.data
    ensures res.Valid() && res.slen <= limit
    ensures if full then Full(res.Text(), d.bad, p, limit) else AllRead(res.Text(), d.bad, p)
  {
    hide ReadSoFar, Decoded, DecLine, Unfinished, CountedBad, Full, AllRead;
    ghost var ends: nat := 0;
    var n: nat := 1;
    full := false;
    ReadValid(res.Text(), d, p, 0);
    while n > 0 && !full
      invariant d.src.data == old(d.src.data) || fresh(d.src.data)
      invariant d.dst.data == old(d.dst.data) || fresh(d.dst.data)
      invariant d.inp.buff.data == old(d.inp.buff.data) || fresh(d.inp.buff.data)
      invariant res.data == old(res.data) || fresh(res.data)
      invariant d.Valid() && res.Valid() && Clear(d, out, res) && res.slen <= limit
      invariant full ==> Full(res.Text(), d.bad, p, limit)
      invariant !full && n > 0 ==> ReadSoFar(res.Text(), d, p, ends)
      invariant !full && n == 0 ==> AllRead(res.Text(), d.bad, p)
      decreases n > 0 && !full, limit - res.slen
    {
      n, full, ends := ReadPart(d, out, res, limit, p, ends);
    }
  }

  lemma ReadValid(got: Text, d: Decoder, p: Text, ends: nat)
    requires ReadSoFar(got, d, p, ends)
    ensures d.Valid()
  {
  }

  datatype Decoding = NoText | SomeText(text: Text)

  /** What `bUuDecodeEx` returns on a text without an unfinished line that decodes to bytes. */
  function Result(p: Text): Decoding {
    if Decoded(p) == [] then NoText else SomeText(Decoded(p))
  }

  /** Decoding what was encoded gives the bytes back, with no bad line counted, exactly when there are
      bytes: for the empty string the decoder returns null. */
  lemma UuRoundTrip(s: Text)
    ensures CountedBad(Encoded(s)) == 0
    ensures DecLine(Unfinished(Encoded(s))).bytes == []
    ensures Result(Encoded(s)) == SomeText(s) <==> s != []
  {
    hide Decoded, BadLines, Unfinished, Encoded;
    RoundTrip(s);
    EmptyLine();
  }

  // ---------- a line without an end ----------

  /** Every encoded line that has lost its end is an unfinished line, and decodes to its bytes. */
  lemma EndLost(x: Text)
    requires 0 < |x| <= MAX_LINE
    ensures Unfinished(EncLine(x)) == EncLine(x) && Decoded(EncLine(x)) == []
    ensures DecLine(EncLine(x)) == LineResult(x, false)
  {
    hide EncLine, DecLine;
    LineBack(x);
    NoEol(EncLine(x));
  }

  /** What is left to serve after k calls for size bytes each, when f was left and t is unfinished. */
  function LeftAfter(f: Text, t: Text, size: nat, k: nat): Text {
    if k == 0 then f
    else
      var d := Supply(LeftAfter(f, t, size, k - 1), t, size);
      d[Least(size, |d|)..]
  }

  /** What the k calls serve, one after the other. */
  function ServedIn(f: Text, t: Text, size: nat, k: nat): Text {
    if k == 0 then []
    else
      var d := Supply(LeftAfter(f, t, size, k - 1), t, size);
      ServedIn(f, t, size, k - 1) + d[..Least(size, |d|)]
  }

  /** How many of them meet the end of the input. */
  function EndsMet(f: Text, t: Text, size: nat, k: nat): nat {
    if k == 0 then 0
    else EndsMet(f, t, size, k - 1) + if |LeftAfter(f, t, size, k - 1)| > size then 0 else 1
  }

  /** A call serves nothing exactly when nothing is left and the unfinished line decodes to nothing. */
  lemma ServesNothing(f: Text, t: Text, size: nat)
    requires size > 0
    ensures Supply(f, t, size) == [] <==> f == [] && DecLine(t).bytes == []
  {
  }

  /** Whatever is served or left is what was left at the start, and the unfinished line once more for
      every time the end of the input was met. */
  lemma {:induction false} ServedAgain(f: Text, t: Text, size: nat, k: nat)
    ensures ServedIn(f, t, size, k) + LeftAfter(f, t, size, k) == f + Repeat(DecLine(t).bytes, EndsMet(f, t, size, k))
  {
    hide *;
    var u := DecLine(t).bytes;
    if k == 0 {
      NothingServed(f, t, size);
    } else {
      var got, left, n := ServedIn(f, t, size, k - 1), LeftAfter(f, t, size, k - 1), EndsMet(f, t, size, k - 1);
      ServedAgain(f, t, size, k - 1);
      OneMoreCall(f, t, size, k);
      RepeatLast(u, n);
      Again(ServedIn(f, t, size, k) + LeftAfter(f, t, size, k), got, left, |left| <= size, f,
            Repeat(u, n), Repeat(u, EndsMet(f, t, size, k)), u);
    }
  }

  lemma Again(x: Text, got: Text, left: Text, more: bool, f: Text, r: Text, r': Text, u: Text)
    requires got + left == f + r && x == got + (if more then left + u else left) && r' == if more then r + u else r
    ensures x == f + r'
  {
    if more { JoinLast(got, left, f, r, u); }
  }

  lemma NothingServed(f: Text, t: Text, size: nat)
    ensures ServedIn(f, t, size, 0) + LeftAfter(f, t, size, 0) == f + Repeat(DecLine(t).bytes, EndsMet(f, t, size, 0))
  {
    hide DecLine;
    assert [] + f == f + [];
  }

  lemma OneMoreCall(f: Text, t: Text, size: nat, k: nat)
    requires k > 0
    ensures var got, left, n := ServedIn(f, t, size, k - 1), LeftAfter(f, t, size, k - 1), EndsMet(f, t, size, k - 1);
      && ServedIn(f, t, size, k) + LeftAfter(f, t, size, k) ==
           got + (if |left| > size then left else left + DecLine(t).bytes)
      && EndsMet(f, t, size, k) == if |left| > size then n else n + 1
  {
    hide DecLine;
    var d := Supply(LeftAfter(f, t, size, k - 1), t, size);
    CutAnywhere(ServedIn(f, t, size, k - 1), d, Least(size, |d|));
  }

  lemma CutAnywhere(got: Text, d: Text, n: nat)
    requires n <= |d|
    ensures got + d[..n] + d[n..] == got + d
  {
    assert d == d[..n] + d[n..];
  }

  lemma {:induction false} LeftShrinks(f: Text, t: Text, size: nat, k: nat)
    requires size > 0 && DecLine(t).bytes == []
    ensures |LeftAfter(f, t, size, k)| <= if k <= |f| then |f| - k else 0
  {
    hide DecLine;
    if k > 0 {
      LeftShrinks(f, t, size, k - 1);
      assert LeftAfter(f, t, size, k - 1) + [] == LeftAfter(f, t, size, k - 1);
    }
  }

  /** Calls for a positive number of bytes come to the one that serves nothing, which alone is taken for
      the end, exactly when the unfinished line decodes to nothing. */
  lemma EndsIff(f: Text, t: Text, size: nat)
    requires size > 0
    ensures (exists k: nat :: Supply(LeftAfter(f, t, size, k), t, size) == []) <==> DecLine(t).bytes == []
  {
    hide DecLine, Supply, LeftAfter;
    if DecLine(t).bytes == [] {
      LeftShrinks(f, t, size, |f|);
      ServesNothing(LeftAfter(f, t, size, |f|), t, size);
    } else {
      forall k: nat
        ensures Supply(LeftAfter(f, t, size, k), t, size) != []
      {
        ServesNothing(LeftAfter(f, t, size, k), t, size);
      }
    }
  }
}

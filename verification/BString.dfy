/** Byte strings with explicit room: the header, the growing buffer, and the in-place operations that
    the search, replace, stream and codec code builds on. */
module BString {
  import opened Bits

  type byte = bv8
  type Text = seq<byte>

  const OK := 0
  const ERR := -1
  const INT_LIMIT := 0x8000_0000
  const SIZE_LIMIT := 0x4000_0000

  // ---------- the snapped size ----------

  /** A 32-bit unsigned value read as a signed one. */
  function Signed(j: nat): int
    requires j < 2 * INT_LIMIT
  {
    if j < INT_LIMIT then j else j - 2 * INT_LIMIT
  }

  lemma SmearWord(i: nat)
    requires 0 < i < INT_LIMIT
    ensures var p := Log2(i); p <= 30 && Pow2(p) <= i < Pow2(p + 1) && Smear(i) + 1 == Pow2(p + 1)
  {
    Pow2Values();
    TopBit(i);
    Pow2Reflects(Log2(i), 31);
    SmearFills(i, Log2(i));
  }

  lemma SmearFits(i: nat)
    requires 8 <= i < INT_LIMIT
    ensures Smear(i) + 1 <= INT_LIMIT
  {
    SmearWord(i);
    Pow2Values();
    Pow2Mono(Log2(i) + 1, 31);
  }

  /** `snapUpSize` on 32-bit ints. */
  function SnapUpSize(i: int): int
    requires i < INT_LIMIT
  {
    if i < 8 then 8
    else
      SmearFits(i);
      var j := Signed(Smear(i) + 1);
      if j >= i then j else i
  }

  /** From 8 up to 2^30 the snapped size is the least power of two above i. */
  lemma SnapIsLeast(i: int)
    requires 8 <= i < SIZE_LIMIT
    ensures IsPow2(SnapUpSize(i)) && i < SnapUpSize(i) <= SIZE_LIMIT
    ensures forall q: nat :: i < Pow2(q) ==> SnapUpSize(i) <= Pow2(q)
  {
    hide IsPow2;
    var p := Log2(i);
    SmearWord(i);
    Pow2Values();
    Pow2Reflects(p, 30);
    Pow2Mono(p + 1, 30);
    Log2Pow2(p + 1);
    forall q: nat | i < Pow2(q) ensures SnapUpSize(i) <= Pow2(q) {
      Pow2Reflects(p, q);
      Pow2Mono(p + 1, q);
    }
  }

  lemma TopSize(i: int)
    requires SIZE_LIMIT <= i < INT_LIMIT
    ensures Smear(i) + 1 == INT_LIMIT
  {
    var p := Log2(i);
    SmearWord(i);
    Pow2Values();
    hide Smear, Log2;
    Pow2Reflects(30, p + 1);
    assert p == 30;
  }

  /** The snapped size leaves room for a terminator exactly below 2^30: above, the doubled size does
      not fit a signed int and the request comes back unchanged. */
  lemma SnapLeavesRoom(i: int)
    requires i < INT_LIMIT
    ensures i < SnapUpSize(i) <==> i < SIZE_LIMIT
    ensures i <= SnapUpSize(i)
  {
    if 8 <= i < SIZE_LIMIT {
      SnapIsLeast(i);
    } else if i >= SIZE_LIMIT {
      TopSize(i);
    }
  }

  // ---------- blocks of memory ----------

  /** A readable stretch of some buffer. It may lie inside the string that is being changed. */
  datatype View = View(block: array<byte>, start: nat, len: nat) {
    ghost predicate Valid() {
      start + len <= block.Length
    }

    ghost function Text(): Text
      requires Valid()
      reads block
    {
      block[start..start + len]
    }

    function From(skip: nat): View
      requires skip <= len
    {
      View(block, start + skip, len - skip)
    }
  }

  function Pasted(s: Text, d: nat, t: Text): (r: Text)
    requires d + |t| <= |s|
    ensures |r| == |s|
  {
    s[..d] + t + s[d + |t|..]
  }

  /** A paste after position n leaves what is before it. */
  lemma PastedBefore(s: Text, d: nat, t: Text, n: nat)
    requires d + |t| <= |s| && n <= d
    ensures Pasted(s, d, t)[..n] == s[..n]
  {
  }

  lemma PastedUpTo(s: Text, d: nat, t: Text)
    requires d + |t| <= |s|
    ensures Pasted(s, d, t)[..d + |t|] == s[..d] + t
  {
  }

  lemma HeadSelf(s: Text, fill: byte)
    ensures Head(s, |s|, fill) == s
  {
  }

  lemma CutBehind(s: Text, pos: nat, len: nat, t: Text, fill: byte)
    requires pos + len >= |s|
    ensures Tail(s, pos + len) == []
    ensures var r := Head(s, pos, fill) + t + Tail(s, pos + |t|); |r| >= pos + |t| && r[..pos + |t|] == Head(s, pos, fill) + t
  {
  }

  lemma PastedSelf(s: Text, p: nat, q: nat)
    requires p <= q <= |s|
    ensures Pasted(s, p, s[p..q]) == s
  {
  }

  lemma ClosedUp(s: Text, n: nat, p: nat, l: nat)
    requires p + l <= n <= |s|
    ensures Pasted(s, p, s[p + l..n])[..n - l] == s[..n][..p] + s[..n][p + l..]
  {
    PastedUpTo(s, p, s[p + l..n]);
  }

  /** Opening a gap or closing one: the rest of the text moves to its new place, then t is put before
      it. */
  lemma Spliced(s: Text, n: nat, p: nat, q: nat, t: Text)
    requires p <= q <= n <= |s| && p + |t| + n - q <= |s|
    ensures Pasted(Pasted(s, p + |t|, s[q..n]), p, t)[..p + |t| + n - q] == s[..p] + t + s[q..n]
  {
    var moved := Pasted(s, p + |t|, s[q..n]);
    var r := Pasted(moved, p, t);
    assert moved[..p] == s[..p] && moved[p + |t|..p + |t| + n - q] == s[q..n];
    assert r[..p] == moved[..p] && r[p..p + |t|] == t && r[p + |t|..] == moved[p + |t|..];
    var m := p + |t| + n - q;
    assert r[p + |t|..m] == moved[p + |t|..m];
    assert r[..m] == r[..p] + r[p..p + |t|] + r[p + |t|..m];
  }

  /** What a block whose first n bytes are known begins with after t was put over it. */
  lemma Overlaid(s: Text, n: nat, p: nat, t: Text)
    requires p <= n <= |s| && p + |t| <= |s|
    ensures var m := if p + |t| > n then p + |t| else n;
            Pasted(s, p, t)[..m] == s[..p] + t + Tail(s[..n], p + |t|)
  {
    var r := Pasted(s, p, t);
    if p + |t| <= n {
      assert r[p + |t|..n] == s[p + |t|..n] == s[..n][p + |t|..];
      assert r[..n] == r[..p + |t|] + r[p + |t|..n];
    }
  }

  lemma HeadTail(s: Text, n: nat, p: nat, q: nat, fill: byte)
    requires p <= n && p <= q && |s| <= n && (n > |s| ==> p == n)
    ensures Head(s, n, fill)[..p] == Head(s, p, fill) && Tail(Head(s, n, fill), q) == Tail(s, q)
  {
  }

  /** `memmove`: the source may overlap the destination. */
  method Move(dst: array<byte>, d: nat, src: View)
    requires src.Valid() && d + src.len <= dst.Length
    modifies dst
    ensures dst[..] == Pasted(old(dst[..]), d, old(src.Text()))
  {
    forall i | 0 <= i < src.len {
      dst[d + i] := src.block[src.start + i];
    }
    assert forall i :: 0 <= i < src.len ==> dst[d + i] == old(src.Text())[i];
  }

  /** `memcpy`: the source must not overlap the destination. */
  method Copy(dst: array<byte>, d: nat, src: View)
    requires src.Valid() && d + src.len <= dst.Length
    requires src.block != dst || src.len == 0 || src.start + src.len <= d || d + src.len <= src.start
    modifies dst
    ensures dst[..] == Pasted(old(dst[..]), d, old(src.Text()))
  {
    Move(dst, d, src);
  }

  /** `free`, and a `realloc` that moves: the contents of the block may be anything afterwards. */
  method Free(block: array<byte>)
    modifies block
  {
    if block.Length > 0 { block[0] := *; }
  }

  // ---------- what the operations compute ----------

  function Fill(n: nat, c: byte): (r: Text)
    ensures |r| == n
  {
    seq(n, _ => c)
  }

  /** The first n characters, `fill` standing for those that are missing. */
  function Head(s: Text, n: nat, fill: byte): (r: Text)
    ensures |r| == n
  {
    if n <= |s| then s[..n] else s + Fill(n - |s|, fill)
  }

  /** What remains from position n on. */
  function Tail(s: Text, n: nat): Text {
    if n <= |s| then s[n..] else []
  }

  /** The characters at the positions from left up to left + len that the string has. */
  function Mid(s: Text, left: int, len: int): Text {
    var lo, hi := if left < 0 then 0 else left, if left + len > |s| then |s| else left + len;
    if lo < hi then s[lo..hi] else []
  }

  /** The string without those characters. */
  function Without(s: Text, pos: int, len: int): Text {
    var lo, hi := if pos < 0 then 0 else pos, if pos + len > |s| then |s| else pos + len;
    if lo < hi then s[..lo] + s[hi..] else s
  }

  lemma ViewAt(v: View, k: nat)
    requires v.Valid() && k < v.len
    ensures v.Text()[k] == v.block[v.start + k]
  {
  }

  /** A view still reads the text t when its bytes are those of t. */
  lemma StillReads(v: View, t: Text)
    requires v.Valid() && |t| == v.len
    requires forall k :: 0 <= k < v.len ==> t[k] == v.block[v.start + k]
    ensures v.Text() == t
  {
    forall k | 0 <= k < v.len
      ensures v.Text()[k] == t[k]
    {
      ViewAt(v, k);
    }
  }

  lemma MidOfView(v: View, left: int, len: int, part: View)
    requires v.Valid() && part.Valid() && part.block == v.block
    requires var lo := if left < 0 then 0 else left;
             && part.start == v.start + lo && part.len > 0
             && part.len == (if left + len > v.len then v.len else left + len) - lo
    ensures part.Text() == Mid(v.Text(), left, len)
  {
    var lo := if left < 0 then 0 else left;
    var s, t := v.Text(), part.Text();
    forall k | 0 <= k < part.len
      ensures t[k] == s[lo + k]
    {
      ViewAt(part, k);
      ViewAt(v, lo + k);
    }
    assert t == s[lo..lo + part.len];
  }

  // ---------- the string ----------

  class BString {
    /** The buffer, whose length is `mlen`. */
    var data: array<byte>
    var slen: nat

    /** There is always room for the terminator. */
    ghost predicate Valid()
      reads this
    {
      slen < data.Length
    }

    ghost predicate Terminated()
      reads this, data
    {
      Valid() && data[slen] == 0
    }

    ghost function Text(): (s: Text)
      requires Valid()
      reads this, data
      ensures |s| == slen
    {
      data[..slen]
    }

    /** A view that reads this buffer reads the text only. */
    ghost predicate Readable(v: View)
      reads this
    {
      v.Valid() && (v.block == data ==> v.start + v.len <= slen)
    }

    function All(): (v: View)
      reads this
      ensures v == View(data, 0, slen)
    {
      View(data, 0, slen)
    }

    /** `bfromcstr ("")` */
    constructor ()
      ensures Terminated() && Text() == [] && fresh(data) && data.Length == 8
    {
      data := new byte[SnapUpSize(2)];
      slen := 0;
      new;
      data[0] := 0;
    }

    /** `bfromcstralloc`: an empty string with at least the given room. */
    constructor Sized(room: int)
      ensures Terminated() && Text() == [] && fresh(data) && data.Length >= room && data.Length >= 8
    {
      data := new byte[if SnapUpSize(2) < room then room else SnapUpSize(2)];
      slen := 0;
      new;
      data[0] := 0;
    }

    /** A header with a block of just the given size, its text still to be filled in. */
    constructor Exact(room: nat)
      requires room > 0
      ensures Valid() && fresh(data) && data.Length == room && slen == room - 1
    {
      data := new byte[room];
      slen := room - 1;
    }

    /** `bstrcpy`, and `blk2bstr` on the same bytes. */
    constructor CopyOf(v: View)
      requires v.Valid() && v.len + 1 < SIZE_LIMIT
      ensures Terminated() && Text() == v.Text() && fresh(data)
    {
      SnapLeavesRoom(v.len + 1);
      data := new byte[SnapUpSize(v.len + 1)];
      slen := v.len;
      new;
      Copy(data, 0, v);
      data[slen] := 0;
    }

    /** `balloc`: room for olen bytes. One byte more than asked for is there whenever the request
        stays below 2^30. When the text moves to another block the old one is given back, and what it
        holds from then on is anybody's. */
    method Balloc(olen: int) returns (ret: int)
      requires Valid() && olen < INT_LIMIT
      modifies this`data, data
      ensures Valid() && Text() == old(Text()) && (data == old(data) || fresh(data))
      ensures (ret == OK <==> olen > 0) && (ret == ERR <==> olen <= 0)
      ensures ret == OK ==> data.Length >= olen && (olen < SIZE_LIMIT ==> data.Length > olen)
      ensures data != old(data) <==> old(data.Length) <= olen && old(data.Length) < SnapUpSize(olen)
      ensures data != old(data) ==> Terminated() && data.Length == SnapUpSize(olen)
      ensures data == old(data) ==> data[..] == old(data[..])
    {
      if olen <= 0 { return ERR; }
      if olen >= data.Length {
        var len := SnapUpSize(olen);
        SnapLeavesRoom(olen);
        if len <= data.Length { return OK; }
        var x := new byte[len];
        // realloc keeps the whole block; a new block gets the text only
        Copy(x, 0, View(data, 0, if 7 * data.Length < 8 * slen then data.Length else slen));
        ghost var s := x[..slen];
        Free(data);
        data := x;
        data[slen] := 0;
        assert data[..slen] == s;
      }
      return OK;
    }

    /** `bconcat` */
    method Concat(v: View) returns (ret: int)
      requires Valid() && Readable(v) && slen + v.len + 1 < SIZE_LIMIT
      modifies this, data
      ensures ret == OK && Terminated() && Text() == old(Text()) + old(v.Text())
      ensures data == old(data) || fresh(data)
    {
      var d := slen;
      var aux := v;
      if data.Length <= d + v.len + 1 {
        if v.block == data {
          var copy := new BString.CopyOf(v);
          aux := copy.All();
        }
        ret := Balloc(d + v.len + 1);
      }
      assert aux.Text() == old(v.Text());
      Append(aux);
      ret := OK;
    }

    /** The bytes of v after the text, and the terminator after them. */
    method Append(v: View)
      requires Valid() && Readable(v) && slen + v.len < data.Length
      modifies this`slen, data
      ensures Terminated() && Text() == old(Text()) + old(v.Text())
    {
      Copy(data, slen, v);
      data[slen + v.len] := 0;
      slen := slen + v.len;
    }

    /** `bconchar` */
    method ConcatChar(c: byte) returns (ret: int)
      requires Valid() && slen + 2 < SIZE_LIMIT
      modifies this, data
      ensures ret == OK && Terminated() && Text() == old(Text()) + [c]
      ensures data == old(data) || fresh(data)
    {
      var d := slen;
      ret := Balloc(d + 2);
      data[d] := c;
      data[d + 1] := 0;
      slen := d + 1;
    }

    /** `bcatblk` */
    method ConcatBlock(v: View) returns (ret: int)
      requires Valid() && v.Valid() && v.block != data && slen + v.len + 1 < SIZE_LIMIT
      modifies this, data
      ensures ret == OK && Terminated() && Text() == old(Text()) + old(v.Text())
      ensures data == old(data) || fresh(data)
    {
      var nl := slen + v.len;
      if data.Length <= nl { ret := Balloc(nl + 1); }
      Append(v);
      ret := OK;
    }

    /** `bdelete` */
    method Delete(pos: int, len: int) returns (ret: int)
      requires Valid()
      modifies this`slen, data
      ensures Valid() && (ret == ERR <==> (if pos < 0 then len + pos else len) < 0)
      ensures ret == OK ==> Text() == Without(old(Text()), pos, len)
      ensures ret == ERR ==> Text() == old(Text())
      ensures ret == OK || ret == ERR
    {
      var p, l := if pos < 0 then 0 else pos, if pos < 0 then len + pos else len;
      if l < 0 { return ERR; }
      if l > 0 && p < slen {
        if p + l >= slen {
          slen := p;
        } else {
          CloseUp(p, l);
        }
        data[slen] := 0;
      }
      return OK;
    }

    method CloseUp(p: nat, l: nat)
      requires Valid() && p + l < slen
      modifies this`slen, data
      ensures Valid() && Text() == old(Text())[..p] + old(Text())[p + l..]
    {
      hide Pasted;
      ghost var was, n := data[..], slen;
      assert was[..n] == Text();
      var rest := View(data, p + l, slen - (p + l));
      assert rest.Text() == was[p + l..n];
      Move(data, p, rest);
      ClosedUp(was, n, p, l);
      slen := slen - l;
      assert data[..slen] == data[..][..slen];
    }

    /** `bassign` */
    method Assign(v: View) returns (ret: int)
      requires Valid() && Readable(v) && v.len < SIZE_LIMIT
      modifies this, data
      ensures ret == OK && Terminated() && Text() == old(v.Text())
      ensures data == old(data) || fresh(data)
    {
      if v.len != 0 {
        ret := Balloc(v.len);
        Move(data, 0, v);
      }
      data[v.len] := 0;
      slen := v.len;
      ret := OK;
    }

    /** `bassignmidstr` */
    method AssignMid(v: View, left: int, len: int) returns (ret: int)
      requires Valid() && Readable(v) && v.len < SIZE_LIMIT
      modifies this, data
      ensures ret == OK && Terminated() && Text() == Mid(old(v.Text()), left, len)
      ensures data == old(data) || fresh(data)
    {
      var lo, l := if left < 0 then 0 else left, if left < 0 then len + left else len;
      if l > v.len - lo { l := v.len - lo; }
      if l > 0 {
        var part := View(v.block, v.start + lo, l);
        MidOfView(v, left, len, part);
        ret := Assign(part);
      } else {
        slen := 0;
        data[slen] := 0;
        ret := OK;
      }
    }

    /** The copy of v that an operation works from when v may lie in the buffer it changes. */
    method Detach(v: View) returns (aux: View)
      requires Valid() && v.Valid() && v.len + 1 < SIZE_LIMIT
      ensures aux.Valid() && aux.len == v.len && aux.Text() == v.Text() && aux.block != data
      ensures aux == v || fresh(aux.block)
    {
      if v.block == data {
        var copy := new BString.CopyOf(v);
        aux := copy.All();
      } else {
        aux := v;
      }
    }

    /** `bsetstr`; an empty view stands for a null argument. */
    method SetStr(pos: int, v: View, fill: byte) returns (ret: int)
      requires Valid() && Readable(v) && pos + v.len + 1 < SIZE_LIMIT
      modifies this, data
      ensures Valid() && (data == old(data) || fresh(data))
      ensures (ret == ERR <==> pos < 0) && (ret == OK <==> pos >= 0)
      ensures ret == ERR ==> Text() == old(Text())
      ensures ret == OK ==>
        && Terminated()
        && Text() == Head(old(Text()), pos, fill) + old(v.Text()) + Tail(old(Text()), pos + v.len)
    {
      if pos < 0 { return ERR; }
      var aux := Detach(v);
      assert aux.Text() == v.Text();
      Overlay(pos, aux, fill);
      ret := OK;
    }

    method Overlay(pos: nat, aux: View, fill: byte)
      requires Valid() && aux.Valid() && aux.block != data && pos + aux.len + 1 < SIZE_LIMIT
      modifies this, data
      ensures Terminated() && (data == old(data) || fresh(data))
      ensures Text() == Head(old(Text()), pos, fill) + old(aux.Text()) + Tail(old(Text()), pos + aux.len)
    {
      hide Pasted, Head, Tail;
      ghost var s, t := Text(), aux.Text();
      var d := pos + aux.len;
      var ret := Balloc(d + 1);
      var newlen := slen;
      HeadSelf(s, fill);
      if pos > newlen {
        FillUp(pos, fill);
        newlen := pos;
      }
      ghost var was, n := data[..], newlen;
      assert was[..n] == Head(s, n, fill) && aux.Text() == t;
      PutOver(pos, aux, newlen);
      HeadTail(s, n, pos, d, fill);
      assert was[..n][..pos] == was[..pos];
    }

    method PutOver(pos: nat, aux: View, newlen: nat)
      requires aux.Valid() && aux.block != data && pos <= newlen < data.Length && pos + aux.len < data.Length
      modifies this`slen, data
      ensures Terminated()
      ensures Text() == old(data[..pos]) + old(aux.Text()) + Tail(old(data[..newlen]), pos + aux.len)
    {
      hide Pasted, Tail;
      ghost var was := data[..];
      Copy(data, pos, aux);
      Overlaid(was, newlen, pos, old(aux.Text()));
      slen := if pos + aux.len > newlen then pos + aux.len else newlen;
      assert data[..][..slen] == data[..slen];
      data[slen] := 0;
    }

    /** `memset` from the end of the text up to position pos. */
    method FillUp(pos: nat, fill: byte)
      requires Valid() && slen <= pos < data.Length
      modifies data
      ensures data[..pos] == Head(old(Text()), pos, fill) && data[pos..] == old(data[pos..])
    {
      forall i | slen <= i < pos {
        data[i] := fill;
      }
    }

    /** `binsert` */
    method Insert(pos: int, v: View, fill: byte) returns (ret: int)
      requires Valid() && Readable(v)
      requires pos + v.len + 1 < SIZE_LIMIT && slen + v.len + 1 < SIZE_LIMIT
      modifies this, data
      ensures Valid() && (data == old(data) || fresh(data))
      ensures (ret == ERR <==> pos < 0) && (ret == OK <==> pos >= 0)
      ensures ret == ERR ==> Text() == old(Text())
      ensures ret == OK ==>
        && Terminated()
        && Text() == Head(old(Text()), pos, fill) + old(v.Text()) + Tail(old(Text()), pos)
    {
      if pos < 0 { return ERR; }
      var aux := Detach(v);
      var d, l := slen + aux.len, pos + aux.len;
      if l > d {
        InsertBeyond(pos, aux, fill);
      } else {
        InsertInside(pos, aux);
      }
      ret := OK;
    }

    method InsertBeyond(pos: nat, aux: View, fill: byte)
      requires Valid() && aux.Valid() && aux.block != data && slen < pos && pos + aux.len + 1 < SIZE_LIMIT
      modifies this, data
      ensures Terminated() && (data == old(data) || fresh(data))
      ensures Text() == Head(old(Text()), pos, fill) + old(aux.Text())
    {
      var ret := Balloc(pos + aux.len + 1);
      FillUp(pos, fill);
      slen := pos;
      Append(aux);
    }

    method InsertInside(pos: nat, aux: View)
      requires Valid() && aux.Valid() && aux.block != data && pos <= slen && slen + aux.len + 1 < SIZE_LIMIT
      modifies this, data
      ensures Terminated() && (data == old(data) || fresh(data))
      ensures Text() == old(Text())[..pos] + old(aux.Text()) + old(Text())[pos..]
    {
      var d, l := slen + aux.len, pos + aux.len;
      var ret := Balloc(d + 1);
      Splice(pos, pos, aux);
    }

    /** The text from q on moves to just behind the place for v at p, and v is put there. */
    method Splice(p: nat, q: nat, v: View)
      requires Valid() && v.Valid() && v.block != data && p <= q <= slen && slen + p + v.len - q < data.Length
      modifies this`slen, data
      ensures Terminated() && Text() == old(Text())[..p] + old(v.Text()) + old(Text())[q..]
    {
      hide Pasted;
      ghost var was, n, t := data[..], slen, v.Text();
      if v.len != q - p {
        Move(data, p + v.len, View(data, q, slen - q));
      }
      assert data[..] == Pasted(was, p + |t|, was[q..n]) by {
        if v.len == q - p { PastedSelf(was, q, n); }
      }
      assert v.Text() == t;
      Copy(data, p, v);
      Spliced(was, n, p, q, t);
      slen := slen + p + v.len - q;
      assert data[..][..slen] == data[..slen];
      data[slen] := 0;
      assert was[..p] == was[..n][..p] && was[q..n] == was[..n][q..];
    }

    /** `breplace` */
    method Replace(pos: int, len: int, v: View, fill: byte) returns (ret: int)
      requires Valid() && Readable(v)
      requires pos + v.len + 1 < SIZE_LIMIT && slen + v.len + 1 < SIZE_LIMIT
      modifies this, data
      ensures Valid() && (data == old(data) || fresh(data))
      ensures (ret == ERR <==> pos < 0 || len < 0) && (ret == OK <==> pos >= 0 && len >= 0)
      ensures ret == ERR ==> Text() == old(Text())
      ensures ret == OK ==>
        && Terminated()
        && Text() == Head(old(Text()), pos, fill) + old(v.Text()) + Tail(old(Text()), pos + len)
    {
      if pos < 0 || len < 0 { return ERR; }
      if pos + len >= slen {
        ReplaceEnd(pos, len, v, fill);
      } else {
        ReplaceInside(pos, len, v);
      }
      ret := OK;
    }

    /** The replaced part reaches the end of the string: v is put over it, and the string is cut. */
    method ReplaceEnd(pos: nat, len: nat, v: View, fill: byte)
      requires Valid() && Readable(v) && pos + v.len + 1 < SIZE_LIMIT && pos + len >= slen
      modifies this, data
      ensures Terminated() && (data == old(data) || fresh(data))
      ensures Text() == Head(old(Text()), pos, fill) + old(v.Text()) + Tail(old(Text()), pos + len)
    {
      hide Head, Tail;
      ghost var s, t := Text(), v.Text();
      var ret := SetStr(pos, v, fill);
      CutBehind(s, pos, len, t, fill);
      if pos + v.len < slen {
        ghost var r := Text();
        slen := pos + v.len;
        data[slen] := 0;
        assert Text() == r[..slen];
      }
    }

    method ReplaceInside(pos: nat, len: nat, v: View)
      requires Valid() && Readable(v) && pos + len < slen && slen + v.len + 1 < SIZE_LIMIT
      modifies this, data
      ensures Terminated() && (data == old(data) || fresh(data))
      ensures Text() == old(Text())[..pos] + old(v.Text()) + old(Text())[pos + len..]
    {
      var aux := Detach(v);
      if aux.len > len {
        var ret := Balloc(slen + aux.len - len);
      }
      Splice(pos, pos + len, aux);
    }
  }
}

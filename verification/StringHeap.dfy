/** Emulated memory with a bump allocator, and the libc++ string headers the adapters keep in it.
    Addresses index one byte array; what the emulator leaves unmapped below its length is
    readable here. An exception ends the emulation, so a step either returns the new memory
    or raises. */
module StringHeap {
  import opened Bytes

  /** `alloc` refuses to pass this address. */
  const ARENA_END: nat := 0x20E0_0000
  const HEADER: nat := 24

  datatype Image = Image(mem: Octets, next: nat)

  // ------------------------------------------------------------ raw memory

  /** `mem_write` */
  function Write(m: Octets, a: nat, s: Octets): (w: Octets)
    requires a + |s| <= |m|
    ensures |w| == |m|
    ensures forall i :: 0 <= i < |m| ==> w[i] == if a <= i < a + |s| then s[i - a] else m[i]
  {
    m[..a] + s + m[a + |s|..]
  }

  /** Reading nothing succeeds at any address. */
  predicate Readable(m: Octets, a: nat, n: nat) {
    n == 0 || a + n <= |m|
  }

  /** `bytes(mem_read(a, n))` */
  function Read(m: Octets, a: nat, n: nat): (s: Octets)
    requires Readable(m, a, n)
    ensures |s| == n
  {
    if n == 0 then [] else m[a..a + n]
  }

  /** `q` */
  function Quad(m: Octets, a: nat): nat
    requires Readable(m, a, 8)
  {
    FromLittleEndian(Read(m, a, 8))
  }

  /** `(size + 15) & ~15` */
  function RoundUp(size: nat): (r: nat)
    ensures size <= r < size + 16 && r % 16 == 0
  {
    (size + 15) / 16 * 16
  }

  predicate Allocatable(img: Image, size: nat) {
    img.next + RoundUp(size) < ARENA_END
  }

  // --------------------------------------------------------- string headers

  /** The low bit of byte 0 selects the heap form. */
  predicate OnHeap(m: Octets, h: nat)
    requires Readable(m, h, HEADER)
  {
    m[h] % 2 == 1
  }

  function Length(m: Octets, h: nat): nat
    requires Readable(m, h, HEADER)
  {
    if OnHeap(m, h) then Quad(m, h + 8) else m[h] / 2
  }

  function Data(m: Octets, h: nat): nat
    requires Readable(m, h, HEADER)
  {
    if OnHeap(m, h) then Quad(m, h + 16) else h + 1
  }

  predicate Decodable(m: Octets, h: nat) {
    Readable(m, h, HEADER) && Readable(m, Data(m, h), Length(m, h))
  }

  /** The string a header stands for. */
  function StringAt(m: Octets, h: nat): Octets
    requires Decodable(m, h)
  {
    Read(m, Data(m, h), Length(m, h))
  }

  /** `capacity | 1` */
  function Odd(capacity: nat): (r: nat)
    ensures r % 2 == 1 && capacity <= r <= capacity + 1
  {
    capacity / 2 * 2 + 1
  }

  /** The header words as written. */
  function WithHeader(m: Octets, dest: nat, size: nat, length: nat, p: nat): Octets
    requires Readable(m, dest, HEADER)
  {
    var m := Write(m, dest, LittleEndian(Odd(size), 8));
    var m := Write(m, dest + 8, LittleEndian(length, 8));
    Write(m, dest + 16, LittleEndian(p, 8))
  }

  /** The tail all adapters share: a fresh buffer with the value and a NUL, then the three words
      of the header. */
  function Store(img: Image, dest: nat, value: Octets, size: nat): Image
    requires |value| < size && Allocatable(img, size) && ARENA_END <= |img.mem| && Readable(img.mem, dest, HEADER)
  {
    var m := Write(img.mem, img.next, value + [0]);
    Image(WithHeader(m, dest, size, |value|, img.next), img.next + RoundUp(size))
  }

  // ---------------------------------------------------------------- actions

  datatype Action =
    /** `assign(const char*, n)` */
    | Assign(dest: nat, src: nat, n: nat)
    /** `assign(const char*)` */
    | AssignC(dest: nat, src: nat)
    | Append(dest: nat, src: nat, n: nat)
    | AppendC(dest: nat, src: nat)
    /** the settings adapter's `resize` */
    | Resize(dest: nat, n: nat, c: byte)
    /** the authorization adapter's `resize`, with an even capacity */
    | ResizeEven(dest: nat, n: nat, c: byte)
    /** `operator=(const string&)` */
    | Copy(dest: nat, from: nat)
    /** `__init(const char*, n)` */
    | Init(dest: nat, src: nat, n: nat)
    | Freeze(address: nat, size: nat)
    /** `memcpy` and `memmove`; the checked forms say how much room there is */
    | Move(to: nat, src: nat, n: nat, room: Option<nat>)
    /** `memset` */
    | Fill(to: nat, n: nat, c: byte)

  /** Bytes before the NUL; 8192 or more make the reader's assertion fail. */
  function CLength(m: Octets, a: nat, left: nat): Option<nat>
    decreases left, m, a
  {
    if left == 0 || a >= |m| then None
    else if m[a] == 0 then Some(0)
    else match CLength(m, a + 1, left - 1)
      case None => None
      case Some(n) => Some(n + 1)
  }

  const LONGEST: nat := 8192

  function Source(m: Octets, a: nat, n: Option<nat>): Option<Octets> {
    if n.Some? && Readable(m, a, n.value) then Some(Read(m, a, n.value)) else None
  }

  predicate Overruns(n: nat, room: Option<nat>) {
    room.Some? && n > room.value
  }

  /** The bytes an action reads from its source. */
  function Operand(m: Octets, a: Action): Option<Octets> {
    match a
    case Assign(_, src, n) => Source(m, src, Some(n))
    case AssignC(_, src) => Source(m, src, CLength(m, src, LONGEST))
    case Append(_, src, n) => Source(m, src, Some(n))
    case AppendC(_, src) => Source(m, src, CLength(m, src, LONGEST))
    case Init(_, src, n) => Source(m, src, Some(n))
    case Copy(_, from) => if Decodable(m, from) then Some(StringAt(m, from)) else None
    case Freeze(address, size) => Source(m, address, Some(size))
    case Move(_, src, n, room) => if Overruns(n, room) then None else Source(m, src, Some(n))
    case Fill(_, n, c) => Some(seq(n, _ => c))
    case Resize(_, _, _) => Some([])
    case ResizeEven(_, _, _) => Some([])
  }

  function Resized(s: Octets, n: nat, c: byte): (r: Octets)
    ensures |r| == n && forall i :: 0 <= i < n ==> r[i] == if i < |s| then s[i] else c
  {
    if n <= |s| then s[..n] else s + seq(n - |s|, _ => c)
  }

  /** The string an action leaves in its destination, from the operand and the old string. */
  function NewValue(a: Action, operand: Octets, before: Octets): Octets {
    match a
    case Append(_, _, _) => before + operand
    case AppendC(_, _) => before + operand
    case Resize(_, n, c) => Resized(before, n, c)
    case ResizeEven(_, n, c) => Resized(before, n, c)
    case _ => operand
  }

  predicate OnString(a: Action) {
    !a.Freeze? && !a.Move? && !a.Fill?
  }

  /** Whether the adapter reads the destination's old string. */
  predicate Extends(a: Action) {
    a.Append? || a.AppendC? || a.Resize? || a.ResizeEven?
  }

  function BufferSize(a: Action, value: Octets): (size: nat)
    ensures |value| < size
    ensures if a.ResizeEven? then size % 2 == 0 && size <= |value| + 2 else size == |value| + 1
  {
    if a.ResizeEven? then (|value| + 2) / 2 * 2 else |value| + 1
  }

  function StringCall(img: Image, a: Action, operand: Octets): Result<Image>
    requires ARENA_END <= |img.mem| && OnString(a)
  {
    if !Readable(img.mem, a.dest, HEADER) || (Extends(a) && !Decodable(img.mem, a.dest)) then Raised
    else
      var value := NewValue(a, operand, if Extends(a) then StringAt(img.mem, a.dest) else []);
      if Allocatable(img, BufferSize(a, value)) then Ok(Store(img, a.dest, value, BufferSize(a, value))) else Raised
  }

  function RawCall(img: Image, a: Action, operand: Octets): Result<Image>
    requires ARENA_END <= |img.mem| && !OnString(a) && (a.Freeze? ==> |operand| == a.size)
  {
    if a.Freeze? then
      if Allocatable(img, a.size) then Ok(Image(Write(img.mem, img.next, operand), img.next + RoundUp(a.size)))
      else Raised
    else if operand == [] then Ok(img)
    else if Readable(img.mem, a.to, |operand|) then Ok(img.(mem := Write(img.mem, a.to, operand)))
    else Raised
  }

  function Step(img: Image, a: Action): Result<Image>
    requires ARENA_END <= |img.mem|
  {
    match Operand(img.mem, a)
    case None => Raised
    case Some(operand) => if OnString(a) then StringCall(img, a, operand) else RawCall(img, a, operand)
  }

  // ------------------------------------------------- what memory stands for

  predicate Apart(a: nat, n: nat, b: nat, k: nat) {
    a + n <= b || b + k <= a
  }

  /** Outside the part of the arena that is still to be allocated. */
  predicate Settled(img: Image, a: nat, n: nat) {
    a + n <= |img.mem| && (a + n <= img.next || ARENA_END <= a)
  }

  /** The header at `h` stands for `value`; header and buffer are settled. */
  ghost predicate Stands(img: Image, h: nat, value: Octets) {
    && Settled(img, h, HEADER)
    && (if OnHeap(img.mem, h) then Settled(img, Data(img.mem, h), Length(img.mem, h)) else Length(img.mem, h) <= 22)
    && StringAt(img.mem, h) == value
  }

  /** The buffer behind the header at `h`, if it has one, keeps clear of `[a, a + n)`. */
  ghost predicate BufferApart(img: Image, h: nat, a: nat, n: nat) {
    Readable(img.mem, h, HEADER) && (OnHeap(img.mem, h) ==> Apart(Data(img.mem, h), Length(img.mem, h), a, n))
  }

  /** Memory stands for a map from header to string: every header decodes to its string, headers
      are apart from each other and no buffer overlaps a header. Two headers may share a buffer. */
  ghost predicate Represents(img: Image, strings: map<nat, Octets>) {
    && img.next < ARENA_END <= |img.mem|
    && (forall h :: h in strings ==> Stands(img, h, strings[h]))
    && (forall g, h :: g in strings && h in strings ==> KeptApart(img, g, h))
  }

  ghost predicate KeptApart(img: Image, g: nat, h: nat) {
    (g != h ==> Apart(g, HEADER, h, HEADER)) && BufferApart(img, g, h, HEADER)
  }

  /** Every run can begin without strings; `__init` makes the first ones. */
  lemma NoStrings(img: Image)
    requires img.next < ARENA_END <= |img.mem|
    ensures Represents(img, map[])
  {}

  /** `[at, at + n)` is clear of every header and buffer. */
  ghost predicate Clear(img: Image, strings: map<nat, Octets>, at: nat, n: nat) {
    forall h :: h in strings ==> Apart(h, HEADER, at, n) && BufferApart(img, h, at, n)
  }

  /** What an action may be asked to do. String adapters get a header as destination, except that
      `__init` may turn settled memory clear of headers and buffers into one; the raw memory
      adapters stay clear of headers and buffers. */
  ghost predicate Admissible(img: Image, strings: map<nat, Octets>, a: Action) {
    if a.Init? then a.dest in strings || (Settled(img, a.dest, HEADER) && Clear(img, strings, a.dest, HEADER))
    else if a.Copy? then a.dest in strings && a.from in strings
    else if OnString(a) then a.dest in strings
    else if a.Freeze? then true
    else a.n == 0 || Clear(img, strings, a.to, a.n)
  }

  /** `c` lies in the snapshot of `[address, address + size)` at `copy` where a header was. */
  predicate IsCopy(strings: map<nat, Octets>, address: nat, size: nat, copy: nat, c: nat) {
    copy <= c && c + HEADER <= copy + size && c - copy + address in strings
  }

  /** The strings a snapshot adds. */
  function Snapshot(strings: map<nat, Octets>, address: nat, size: nat, copy: nat): map<nat, Octets> {
    map c: nat | copy <= c < copy + size && IsCopy(strings, address, size, copy, c) :: strings[c - copy + address]
  }

  /** The pure meaning of an action on a map from header to string; `copy` is the address of the
      snapshot a freeze takes. */
  function Effect(strings: map<nat, Octets>, a: Action, operand: Octets, copy: nat): map<nat, Octets> {
    if OnString(a) then
      strings[a.dest := NewValue(a, operand, if a.dest in strings then strings[a.dest] else [])]
    else if a.Freeze? then strings + Snapshot(strings, a.address, a.size, copy)
    else strings
  }

  // ----------------------------------------------------------------- frames

  predicate Same(m: Octets, w: Octets, a: nat, n: nat) {
    a + n <= |m| == |w| && forall i :: a <= i < a + n ==> w[i] == m[i]
  }

  lemma SameRead(m: Octets, w: Octets, a: nat, n: nat)
    requires Same(m, w, a, n)
    ensures Read(w, a, n) == Read(m, a, n)
    ensures forall b: nat, k: nat :: a <= b && b + k <= a + n ==> Same(m, w, b, k)
  {}

  /** A header whose own bytes and buffer are untouched stands for the same string. */
  lemma StringUnchanged(m: Octets, w: Octets, h: nat)
    requires Decodable(m, h) && Same(m, w, h, HEADER)
    requires OnHeap(m, h) ==> Same(m, w, Data(m, h), Length(m, h))
    ensures Decodable(w, h) && OnHeap(w, h) == OnHeap(m, h)
    ensures Data(w, h) == Data(m, h) && Length(w, h) == Length(m, h)
    ensures Length(m, h) <= 22 || OnHeap(m, h) ==> StringAt(w, h) == StringAt(m, h)
  {
    hide FromLittleEndian;
    SameRead(m, w, h + 8, 8);
    SameRead(m, w, h + 16, 8);
    assert w[h] == m[h];
    if OnHeap(m, h) || Length(m, h) <= 22 {
      SameRead(m, w, Data(m, h), Length(m, h));
    }
  }

  lemma EightBytes()
    ensures Pow256(8) == 0x1_0000_0000_0000_0000
  {
    assert Pow256(4) == 0x1_0000_0000;
    assert Pow256(6) == 0x1_0000_0000_0000;
  }

  lemma QuadWritten(m: Octets, a: nat, v: nat)
    requires a + 8 <= |m| && v < 0x1_0000_0000_0000_0000 && Read(m, a, 8) == LittleEndian(v, 8)
    ensures Quad(m, a) == v
  {
    EightBytes();
    LittleEndianRoundTrip(v, 8);
  }

  lemma ReadWritten(m: Octets, a: nat, s: Octets)
    requires a + |s| <= |m|
    ensures Read(Write(m, a, s), a, |s|) == s
  {}

  lemma ReadElsewhere(m: Octets, a: nat, s: Octets, b: nat, n: nat)
    requires a + |s| <= |m| && b + n <= |m| && Apart(a, |s|, b, n)
    ensures Read(Write(m, a, s), b, n) == Read(m, b, n)
  {}

  lemma TagIsOdd(size: nat)
    ensures LittleEndian(Odd(size), 8)[0] % 2 == 1
  {
    LowByte(Odd(size));
    LowByteParity(size / 2);
  }

  lemma LowByte(v: nat)
    ensures LittleEndian(v, 8)[0] == v % 256
  {}

  lemma LowByteParity(half: nat)
    ensures (half * 2 + 1) % 256 % 2 == 1
  {
    var low := (half * 2 + 1) % 256;
    var high := (half * 2 + 1) / 256;
    assert low == 2 * (half - 128 * high) + 1;
  }

  lemma HeaderWritten(m: Octets, dest: nat, size: nat, length: nat, p: nat)
    requires Readable(m, dest, HEADER) && length < 0x1_0000_0000_0000_0000 && p < 0x1_0000_0000_0000_0000
    ensures var w := WithHeader(m, dest, size, length, p);
            && |w| == |m| && OnHeap(w, dest) && Length(w, dest) == length && Data(w, dest) == p
            && (forall i :: 0 <= i < |w| && !(dest <= i < dest + HEADER) ==> w[i] == m[i])
  {
    var tag, words, pointer := LittleEndian(Odd(size), 8), LittleEndian(length, 8), LittleEndian(p, 8);
    assert tag[0] % 2 == 1 by { TagIsOdd(size); }
    hide LittleEndian, FromLittleEndian, Odd;
    var m1 := Write(m, dest, tag);
    var m2 := Write(m1, dest + 8, words);
    var w := Write(m2, dest + 16, pointer);
    assert w[dest] == m2[dest] == m1[dest] == tag[0];
    ReadWritten(m1, dest + 8, words);
    ReadElsewhere(m2, dest + 16, pointer, dest + 8, 8);
    ReadWritten(m2, dest + 16, pointer);
    QuadWritten(w, dest + 8, length);
    QuadWritten(w, dest + 16, p);
  }

  /** What storing a string does to memory: only the fresh buffer and the destination's header
      change, and the header stands for the value, which it keeps in the fresh buffer. */
  ghost predicate Stored(img: Image, after: Image, dest: nat, value: Octets, size: nat) {
    && |after.mem| == |img.mem| && after.next == img.next + RoundUp(size)
    && (forall i :: 0 <= i < |img.mem| && !(img.next <= i < img.next + size) && !(dest <= i < dest + HEADER)
          ==> after.mem[i] == img.mem[i])
    && Decodable(after.mem, dest) && OnHeap(after.mem, dest)
    && Data(after.mem, dest) == img.next && Length(after.mem, dest) == |value| < size
    && StringAt(after.mem, dest) == value
  }

  lemma StoreWrites(img: Image, dest: nat, value: Octets, size: nat)
    requires |value| < size && Allocatable(img, size) && ARENA_END <= |img.mem| && Settled(img, dest, HEADER)
    ensures Stored(img, Store(img, dest, value, size), dest, value, size)
  {
    hide WithHeader, OnHeap, Length, Data, Quad;
    var p := img.next;
    var m := Write(img.mem, p, value + [0]);
    HeaderWritten(m, dest, size, |value|, p);
    BufferWritten(m, WithHeader(m, dest, size, |value|, p), p, value, dest);
  }

  /** The buffer keeps its content while the header elsewhere is written. */
  lemma BufferWritten(m: Octets, w: Octets, p: nat, value: Octets, dest: nat)
    requires p + |value| <= |m| == |w| && Apart(p, |value|, dest, HEADER)
    requires forall i :: 0 <= i < |w| && !(dest <= i < dest + HEADER) ==> w[i] == m[i]
    requires forall i :: p <= i < p + |value| ==> m[i] == value[i - p]
    ensures Read(w, p, |value|) == value
  {
    var s := Read(w, p, |value|);
    forall i | 0 <= i < |value|
      ensures s[i] == value[i]
    {
      assert s[i] == w[p + i] == m[p + i];
    }
  }

  /** What a snapshot does to memory. */
  ghost predicate Frozen(img: Image, after: Image, address: nat, size: nat) {
    && |after.mem| == |img.mem| && after.next == img.next + RoundUp(size) && Readable(img.mem, address, size)
    && (forall i :: 0 <= i < |img.mem| && !(img.next <= i < img.next + size) ==> after.mem[i] == img.mem[i])
    && (forall i :: address <= i < address + size ==>
          img.next + (i - address) < |img.mem| && after.mem[img.next + (i - address)] == img.mem[i])
  }

  lemma FreezeWrites(img: Image, address: nat, size: nat)
    requires ARENA_END <= |img.mem| && Readable(img.mem, address, size) && Allocatable(img, size)
    ensures Frozen(img, Image(Write(img.mem, img.next, Read(img.mem, address, size)), img.next + RoundUp(size)),
                   address, size)
  {
    var s := Read(img.mem, address, size);
    assert forall i :: address <= i < address + size ==> s[i - address] == img.mem[i];
  }

  // ---------------------------------------------------------- one step refines

  /** A header stands for the same string after a change that keeps clear of it and its buffer. */
  lemma StillStands(img: Image, after: Image, h: nat, value: Octets)
    requires Stands(img, h, value) && img.next <= after.next
    requires Same(img.mem, after.mem, h, HEADER)
    requires OnHeap(img.mem, h) ==> Same(img.mem, after.mem, Data(img.mem, h), Length(img.mem, h))
    ensures Stands(after, h, value)
    ensures forall a: nat, n: nat :: BufferApart(img, h, a, n) ==> BufferApart(after, h, a, n)
  {
    StringUnchanged(img.mem, after.mem, h);
  }

  /** A string action keeps another header's string. */
  lemma OtherStands(img: Image, after: Image, dest: nat, value: Octets, size: nat, h: nat, other: Octets)
    requires img.next < ARENA_END && Stands(img, h, other) && Allocatable(img, size)
    requires Stored(img, after, dest, value, size)
    requires Apart(h, HEADER, dest, HEADER) && BufferApart(img, h, dest, HEADER)
    ensures Stands(after, h, other)
    ensures forall a: nat, n: nat :: BufferApart(img, h, a, n) ==> BufferApart(after, h, a, n)
  {
    StillStands(img, after, h, other);
  }

  /** A string action leaves every other header's string alone, and its destination with the
      stored value. */
  lemma StoreRefines(img: Image, after: Image, strings: map<nat, Octets>, dest: nat, value: Octets, size: nat)
    requires Represents(img, strings) && Allocatable(img, size) && Stored(img, after, dest, value, size)
    requires Settled(img, dest, HEADER) && (dest in strings || Clear(img, strings, dest, HEADER))
    ensures Represents(after, strings[dest := value])
  {
    var all := strings[dest := value];
    assert img.next < ARENA_END <= |img.mem|;
    assert after.next < ARENA_END && |after.mem| == |img.mem| by {
      StoreStands(img, after, strings, dest, value, size, dest);
    }
    hide Stored, Stands, KeptApart, Settled, Clear, Represents, Allocatable;
    forall h | h in all
      ensures Stands(after, h, all[h])
    {
      StoreStands(img, after, strings, dest, value, size, h);
    }
    forall g, h | g in all && h in all
      ensures KeptApart(after, g, h)
    {
      StoreApart(img, after, strings, dest, value, size, g, h);
    }
    AllRepresented(after, all);
  }

  lemma AllRepresented(img: Image, strings: map<nat, Octets>)
    requires img.next < ARENA_END <= |img.mem|
    requires forall h :: h in strings ==> Stands(img, h, strings[h])
    requires forall g, h :: g in strings && h in strings ==> KeptApart(img, g, h)
    ensures Represents(img, strings)
  {
    hide Stands, KeptApart;
  }

  lemma StoreStands(img: Image, after: Image, strings: map<nat, Octets>, dest: nat, value: Octets, size: nat, h: nat)
    requires Represents(img, strings) && Allocatable(img, size) && Stored(img, after, dest, value, size)
    requires Settled(img, dest, HEADER) && (dest in strings || Clear(img, strings, dest, HEADER))
    requires h in strings || h == dest
    ensures Stands(after, h, strings[dest := value][h])
    ensures after.next == img.next + RoundUp(size) && |after.mem| == |img.mem|
  {
    DestinationStands(img, after, dest, value, size);
    hide Stored, StringAt, OnHeap, Data, Length;
    if h != dest {
      assert dest in strings ==> KeptApart(img, h, dest);
      OtherStands(img, after, dest, value, size, h, strings[h]);
    }
  }

  lemma DestinationStands(img: Image, after: Image, dest: nat, value: Octets, size: nat)
    requires Stored(img, after, dest, value, size) && Settled(img, dest, HEADER) && Allocatable(img, size)
    requires ARENA_END <= |img.mem|
    ensures Stands(after, dest, value) && after.next == img.next + RoundUp(size) && |after.mem| == |img.mem|
  {}

  lemma StoreApart(img: Image, after: Image, strings: map<nat, Octets>, dest: nat, value: Octets, size: nat,
                   g: nat, h: nat)
    requires Represents(img, strings) && Allocatable(img, size) && Stored(img, after, dest, value, size)
    requires Settled(img, dest, HEADER) && (dest in strings || Clear(img, strings, dest, HEADER))
    requires (g in strings || g == dest) && (h in strings || h == dest)
    ensures KeptApart(after, g, h)
  {
    assert h in strings ==> Stands(img, h, strings[h]) && Settled(img, h, HEADER);
    assert (g in strings && h in strings ==> KeptApart(img, g, h)) && (g in strings ==> Stands(img, g, strings[g]));
    assert dest in strings && g in strings ==> KeptApart(img, g, dest);
    assert dest !in strings ==> Clear(img, strings, dest, HEADER);
    assert img.next < ARENA_END;
    hide Represents, StringAt, FromLittleEndian;
    if g == dest {
      FreshApart(img, after, dest, value, size, h);
    } else {
      OtherStands(img, after, dest, value, size, g, strings[g]);
      assert BufferApart(img, g, h, HEADER);
    }
  }

  /** The fresh buffer lies in no header. */
  lemma FreshApart(img: Image, after: Image, dest: nat, value: Octets, size: nat, h: nat)
    requires Allocatable(img, size) && Stored(img, after, dest, value, size) && Settled(img, h, HEADER)
    ensures BufferApart(after, dest, h, HEADER)
  {}

  /** A snapshot leaves every header's string alone. */
  lemma OriginalStands(img: Image, after: Image, address: nat, size: nat, h: nat, value: Octets)
    requires img.next < ARENA_END && Stands(img, h, value)
    requires Allocatable(img, size) && Frozen(img, after, address, size)
    ensures Stands(after, h, value)
    ensures forall a: nat, n: nat :: BufferApart(img, h, a, n) ==> BufferApart(after, h, a, n)
  {
    StillStands(img, after, h, value);
  }

  /** The copy of a header in a snapshot stands for the header's string. */
  lemma CopyStands(img: Image, after: Image, address: nat, size: nat, h: nat, value: Octets)
    requires Stands(img, h, value) && Allocatable(img, size) && Frozen(img, after, address, size)
    requires img.next < ARENA_END <= |img.mem| && address <= h && h + HEADER <= address + size
    ensures Stands(after, img.next + (h - address), value)
    ensures forall a: nat, n: nat :: BufferApart(img, h, a, n) ==> BufferApart(after, img.next + (h - address), a, n)
  {
    hide FromLittleEndian;
    OriginalStands(img, after, address, size, h, value);
    FrozenHeader(img, after, address, size, h);
    SameHeader(after.mem, h, img.next + (h - address));
  }

  lemma FrozenHeader(img: Image, after: Image, address: nat, size: nat, h: nat)
    requires Settled(img, h, HEADER) && Allocatable(img, size) && Frozen(img, after, address, size)
    requires img.next < ARENA_END <= |img.mem| && address <= h && h + HEADER <= address + size
    ensures HeaderCopied(after.mem, h, img.next + (h - address))
  {
    var c := img.next + (h - address);
    forall i | h <= i < h + HEADER
      ensures after.mem[c + (i - h)] == after.mem[i]
    {
      assert img.next + (i - address) == c + (i - h);
    }
  }

  predicate HeaderCopied(m: Octets, h: nat, c: nat) {
    && Readable(m, h, HEADER) && Readable(m, c, HEADER)
    && forall i :: h <= i < h + HEADER ==> m[c + (i - h)] == m[i]
  }

  lemma SameHeader(m: Octets, h: nat, c: nat)
    requires HeaderCopied(m, h, c)
    ensures OnHeap(m, c) == OnHeap(m, h) && Length(m, c) == Length(m, h)
    ensures OnHeap(m, h) ==> Data(m, c) == Data(m, h)
    ensures !OnHeap(m, h) && Length(m, h) <= 22 ==> StringAt(m, c) == StringAt(m, h)
  {
    hide FromLittleEndian;
    assert m[c + (h - h)] == m[h];
    SameBytes(m, h, c, 8, 8);
    SameBytes(m, h, c, 16, 8);
    if Length(m, h) <= 22 {
      SameBytes(m, h, c, 1, Length(m, h));
    }
  }

  lemma SameBytes(m: Octets, h: nat, c: nat, from: nat, n: nat)
    requires HeaderCopied(m, h, c) && from + n <= HEADER
    ensures Read(m, c + from, n) == Read(m, h + from, n)
  {
    var x, y := Read(m, c + from, n), Read(m, h + from, n);
    forall i | 0 <= i < n
      ensures x[i] == y[i]
    {
      var at := h + from + i;
      assert m[c + (at - h)] == m[at];
    }
  }

  /** A snapshot is new headers that stand for the same strings. */
  lemma FreezeRefines(img: Image, after: Image, strings: map<nat, Octets>, address: nat, size: nat)
    requires Represents(img, strings) && Allocatable(img, size) && Frozen(img, after, address, size)
    ensures Represents(after, strings + Snapshot(strings, address, size, img.next))
  {
    var all := strings + Snapshot(strings, address, size, img.next);
    forall h | h in all
      ensures Stands(after, h, all[h])
    {
      SnapshotMember(strings, address, size, img.next, h);
      SnapshotStands(img, after, strings, address, size, h);
    }
    forall g, h | g in all && h in all
      ensures KeptApart(after, g, h)
    {
      SnapshotMember(strings, address, size, img.next, g);
      SnapshotMember(strings, address, size, img.next, h);
      SnapshotApart(img, after, strings, address, size, g, h);
    }
  }

  lemma SnapshotMember(strings: map<nat, Octets>, address: nat, size: nat, copy: nat, h: nat)
    requires h in strings + Snapshot(strings, address, size, copy)
    ensures h in strings || IsCopy(strings, address, size, copy, h)
    ensures !(h in strings && IsCopy(strings, address, size, copy, h)) ==>
              (strings + Snapshot(strings, address, size, copy))[h] == strings[Original(strings, address, copy, h)]
  {}

  /** The header a member of the snapshotted map goes back to. */
  function Original(strings: map<nat, Octets>, address: nat, copy: nat, h: nat): int {
    if h in strings then h else h - copy + address
  }

  lemma SnapshotStands(img: Image, after: Image, strings: map<nat, Octets>, address: nat, size: nat, h: nat)
    requires Represents(img, strings) && Allocatable(img, size) && Frozen(img, after, address, size)
    requires h in strings || IsCopy(strings, address, size, img.next, h)
    ensures var h0 := Original(strings, address, img.next, h);
            && h0 in strings && Stands(after, h, strings[h0])
            && (forall a: nat, n: nat :: BufferApart(img, h0, a, n) ==> BufferApart(after, h, a, n))
            && (h in strings ==> !IsCopy(strings, address, size, img.next, h))
  {
    hide FromLittleEndian, StringAt, Frozen;
    var h0 := Original(strings, address, img.next, h);
    if h in strings {
      OriginalStands(img, after, address, size, h, strings[h]);
    } else {
      CopyStands(img, after, address, size, h0, strings[h0]);
    }
  }

  lemma SnapshotApart(img: Image, after: Image, strings: map<nat, Octets>, address: nat, size: nat, g: nat, h: nat)
    requires Represents(img, strings) && Allocatable(img, size) && Frozen(img, after, address, size)
    requires g in strings || IsCopy(strings, address, size, img.next, g)
    requires h in strings || IsCopy(strings, address, size, img.next, h)
    ensures KeptApart(after, g, h)
  {
    hide FromLittleEndian, StringAt, Frozen;
    var g0, h0 := Original(strings, address, img.next, g), Original(strings, address, img.next, h);
    SnapshotStands(img, after, strings, address, size, g);
    assert Stands(img, g0, strings[g0]) && Stands(img, h0, strings[h0]);
    assert BufferApart(img, g0, h0, HEADER);
    assert BufferApart(img, g0, h, HEADER);
  }

  /** A raw memory adapter clear of headers and buffers changes no string. */
  lemma RawRefines(img: Image, strings: map<nat, Octets>, to: nat, s: Octets)
    requires Represents(img, strings) && to + |s| <= |img.mem| && Clear(img, strings, to, |s|)
    ensures Represents(img.(mem := Write(img.mem, to, s)), strings)
  {
    var after := img.(mem := Write(img.mem, to, s));
    forall h | h in strings
      ensures Stands(after, h, strings[h])
    {
      RawStands(img, to, s, h, strings[h]);
    }
    hide Stands, Clear;
    forall g, h | g in strings && h in strings
      ensures KeptApart(after, g, h)
    {
      assert KeptApart(img, g, h);
      RawStands(img, to, s, g, strings[g]);
    }
  }

  lemma RawStands(img: Image, to: nat, s: Octets, h: nat, value: Octets)
    requires Stands(img, h, value) && to + |s| <= |img.mem|
    requires Apart(h, HEADER, to, |s|) && BufferApart(img, h, to, |s|)
    ensures var after := img.(mem := Write(img.mem, to, s));
            && Stands(after, h, value)
            && forall a: nat, n: nat :: BufferApart(img, h, a, n) ==> BufferApart(after, h, a, n)
  {
    hide StringAt;
    StillStands(img, img.(mem := Write(img.mem, to, s)), h, value);
  }

  lemma StringStep(img: Image, after: Image, strings: map<nat, Octets>, a: Action)
    requires Represents(img, strings) && Admissible(img, strings, a) && Step(img, a) == Ok(after) && OnString(a)
    ensures Represents(after, Effect(strings, a, Operand(img.mem, a).value, img.next))
  {
    assert a.dest in strings ==> Stands(img, a.dest, strings[a.dest]);
    hide StringAt, FromLittleEndian;
    var before := if Extends(a) then StringAt(img.mem, a.dest) else [];
    var value := NewValue(a, Operand(img.mem, a).value, before);
    var size := BufferSize(a, value);
    StoreWrites(img, a.dest, value, size);
    StoreRefines(img, after, strings, a.dest, value, size);
  }

  /** Whatever an action does, memory stands afterwards for its pure meaning applied to what it
      stood for before. */
  lemma StepRefines(img: Image, after: Image, strings: map<nat, Octets>, a: Action)
    requires Represents(img, strings) && Admissible(img, strings, a) && Step(img, a) == Ok(after)
    ensures Operand(img.mem, a).Some?
    ensures Represents(after, Effect(strings, a, Operand(img.mem, a).value, img.next))
  {
    hide Represents, Admissible, StringCall, RawCall, Effect, Operand;
    if OnString(a) {
      StringStep(img, after, strings, a);
    } else if a.Freeze? {
      SnapshotStep(img, after, strings, a);
    } else {
      RawStep(img, after, strings, a);
    }
  }

  lemma SnapshotStep(img: Image, after: Image, strings: map<nat, Octets>, a: Action)
    requires Represents(img, strings) && Step(img, a) == Ok(after) && a.Freeze?
    ensures Represents(after, Effect(strings, a, Operand(img.mem, a).value, img.next))
  {
    FreezeWrites(img, a.address, a.size);
    hide Frozen, Snapshot, Write, Stands, KeptApart;
    FreezeRefines(img, after, strings, a.address, a.size);
  }

  lemma RawStep(img: Image, after: Image, strings: map<nat, Octets>, a: Action)
    requires Represents(img, strings) && Admissible(img, strings, a) && Step(img, a) == Ok(after)
    requires !OnString(a) && !a.Freeze?
    ensures Represents(after, Effect(strings, a, Operand(img.mem, a).value, img.next))
  {
    hide Stands, KeptApart;
    if Operand(img.mem, a).value != [] {
      RawRefines(img, strings, a.to, Operand(img.mem, a).value);
    }
  }

  // ------------------------------------------------------------------- runs

  function Run(img: Image, actions: seq<Action>): (r: Result<Image>)
    requires ARENA_END <= |img.mem|
    ensures r.Ok? ==> |r.value.mem| == |img.mem|
    decreases |actions|
  {
    if actions == [] then Ok(img)
    else
      match Step(img, actions[0])
      case Raised => Raised
      case Ok(after) => Run(after, actions[1..])
  }

  /** The map a run leaves memory standing for, each source read where it is. */
  ghost function Replay(img: Image, strings: map<nat, Octets>, actions: seq<Action>): map<nat, Octets>
    requires ARENA_END <= |img.mem|
    decreases |actions|
  {
    if actions == [] || Step(img, actions[0]).Raised? then strings
    else Replay(Step(img, actions[0]).value, Meaning(img, strings, actions[0]), actions[1..])
  }

  function Meaning(img: Image, strings: map<nat, Octets>, a: Action): map<nat, Octets>
    requires ARENA_END <= |img.mem| && Step(img, a).Ok?
  {
    Effect(strings, a, Operand(img.mem, a).value, img.next)
  }

  /** Every action of the run is admissible where it happens. */
  ghost predicate RunAdmissible(img: Image, strings: map<nat, Octets>, actions: seq<Action>)
    requires ARENA_END <= |img.mem|
    decreases |actions|
  {
    actions != [] ==>
      && Admissible(img, strings, actions[0])
      && (Step(img, actions[0]).Ok? ==>
            RunAdmissible(Step(img, actions[0]).value, Meaning(img, strings, actions[0]), actions[1..]))
  }

  lemma {:induction false} RunStands(img: Image, strings: map<nat, Octets>, actions: seq<Action>)
    requires Represents(img, strings) && RunAdmissible(img, strings, actions) && Run(img, actions).Ok?
    ensures Represents(Run(img, actions).value, Replay(img, strings, actions))
    decreases |actions|
  {
    assert ARENA_END <= |img.mem|;
    hide Represents, Admissible, Step, Meaning;
    if actions != [] {
      var after := Step(img, actions[0]).value;
      MeaningStands(img, after, strings, actions[0]);
      RunStands(after, Meaning(img, strings, actions[0]), actions[1..]);
    }
  }

  lemma MeaningStands(img: Image, after: Image, strings: map<nat, Octets>, a: Action)
    requires Represents(img, strings) && Admissible(img, strings, a) && Step(img, a) == Ok(after)
    ensures Represents(after, Meaning(img, strings, a))
  {
    hide Represents, Admissible, Step, Effect, Operand;
    StepRefines(img, after, strings, a);
  }

  /** A source inside a string's own buffer, the destination's included, reads that part of the
      string as it was. */
  lemma SourceInsideString(img: Image, h: nat, value: Octets, k: nat, n: nat)
    requires Stands(img, h, value) && k + n <= |value|
    ensures Readable(img.mem, Data(img.mem, h) + k, n)
    ensures Read(img.mem, Data(img.mem, h) + k, n) == value[k..k + n]
  {
    SliceOfSlice(img.mem, Data(img.mem, h), Length(img.mem, h), k, n);
  }

  lemma SliceOfSlice(m: Octets, a: nat, length: nat, k: nat, n: nat)
    requires Readable(m, a, length) && k + n <= length
    ensures Read(m, a, length)[k..k + n] == Read(m, a + k, n)
  {
    var x, y := Read(m, a, length)[k..k + n], Read(m, a + k, n);
    forall i | 0 <= i < n
      ensures x[i] == y[i]
    {
      assert x[i] == Read(m, a, length)[k + i] == m[a + (k + i)];
    }
  }

  /** So assigning or appending a piece of a string to the string itself does what it says. */
  lemma SelfSource(img: Image, after: Image, strings: map<nat, Octets>, a: Action, k: nat, n: nat)
    requires Represents(img, strings) && (a.Assign? || a.Append?) && a.dest in strings
    requires k + n <= |strings[a.dest]| && a.src == Data(img.mem, a.dest) + k && a.n == n
    requires Step(img, a) == Ok(after)
    ensures var piece := strings[a.dest][k..k + n];
            Represents(after, strings[a.dest := if a.Append? then strings[a.dest] + piece else piece])
  {
    hide Step, StringAt;
    assert Stands(img, a.dest, strings[a.dest]);
    SourceInsideString(img, a.dest, strings[a.dest], k, n);
    StringStep(img, after, strings, a);
  }

  // ---------------------------------------------------------- the pure run

  /** What a string call is passed: bytes of the caller's, or a piece of a string, which may be the
      destination itself. */
  datatype Piece = Given(bytes: Octets) | Slice(header: nat, from: nat, n: nat)

  /** A call as its caller means it. */
  datatype Call =
    | Put(dest: nat, piece: Piece, append: bool)
    | SetSize(dest: nat, n: nat, c: byte, even: bool)
    | CopyOf(dest: nat, from: nat)
    | Snap(address: nat, size: nat)
    | Raw

  /** A map from header to string and the allocator's mark; no memory. */
  datatype Pure = Pure(strings: map<nat, Octets>, next: nat)

  predicate Known(strings: map<nat, Octets>, piece: Piece) {
    piece.Slice? ==> piece.header in strings && piece.from + piece.n <= |strings[piece.header]|
  }

  function Content(strings: map<nat, Octets>, piece: Piece): Octets
    requires Known(strings, piece)
  {
    match piece
    case Given(bytes) => bytes
    case Slice(header, from, n) => strings[header][from..from + n]
  }

  predicate Meant(strings: map<nat, Octets>, call: Call) {
    match call
    case Put(_, piece, _) => Known(strings, piece)
    case CopyOf(_, from) => from in strings
    case _ => true
  }

  function Old(strings: map<nat, Octets>, h: nat): Octets {
    if h in strings then strings[h] else []
  }

  function Applied(p: Pure, call: Call): Pure
    requires Meant(p.strings, call)
  {
    match call
    case Put(dest, piece, append) =>
      var value := (if append then Old(p.strings, dest) else []) + Content(p.strings, piece);
      Pure(p.strings[dest := value], p.next + RoundUp(|value| + 1))
    case SetSize(dest, n, c, even) =>
      var size := if even then (n + 2) / 2 * 2 else n + 1;
      Pure(p.strings[dest := Resized(Old(p.strings, dest), n, c)], p.next + RoundUp(size))
    case CopyOf(dest, from) =>
      Pure(p.strings[dest := p.strings[from]], p.next + RoundUp(|p.strings[from]| + 1))
    case Snap(address, size) => Pure(p.strings + Snapshot(p.strings, address, size, p.next), p.next + RoundUp(size))
    case Raw => p
  }

  /** The run on the map alone. */
  function PureRun(p: Pure, calls: seq<Call>): Pure
    decreases |calls|
  {
    if calls == [] || !Meant(p.strings, calls[0]) then p else PureRun(Applied(p, calls[0]), calls[1..])
  }

  predicate Appends(a: Action) {
    a.Append? || a.AppendC?
  }

  predicate Puts(a: Action) {
    a.Assign? || a.AssignC? || a.Init? || Appends(a)
  }

  function SourceLength(m: Octets, a: Action): Option<nat>
    requires Puts(a)
  {
    if a.AssignC? || a.AppendC? then CLength(m, a.src, LONGEST) else Some(a.n)
  }

  /** The piece is what the call's pointer and length denote. */
  predicate Passes(m: Octets, strings: map<nat, Octets>, a: Action, piece: Piece)
    requires Puts(a)
  {
    match piece
    case Given(bytes) => Operand(m, a) == Some(bytes)
    case Slice(header, from, n) =>
      && Known(strings, piece) && Readable(m, header, HEADER)
      && a.src == Data(m, header) + from && SourceLength(m, a) == Some(n)
  }

  predicate Denotes(m: Octets, strings: map<nat, Octets>, a: Action, call: Call) {
    match call
    case Put(dest, piece, append) => Puts(a) && a.dest == dest && append == Appends(a) && Passes(m, strings, a, piece)
    case SetSize(dest, n, c, even) => a == if even then ResizeEven(dest, n, c) else Resize(dest, n, c)
    case CopyOf(dest, from) => a == Copy(dest, from) && from in strings
    case Snap(address, size) => a == Freeze(address, size)
    case Raw => a.Move? || a.Fill?
  }

  /** Every call denotes the action made where it happens. */
  ghost predicate Denoting(img: Image, strings: map<nat, Octets>, actions: seq<Action>, calls: seq<Call>)
    requires ARENA_END <= |img.mem|
    decreases |actions|
  {
    && |calls| == |actions|
    && (actions != [] ==>
          && Denotes(img.mem, strings, actions[0], calls[0])
          && (Step(img, actions[0]).Ok? ==>
                Denoting(Step(img, actions[0]).value, Meaning(img, strings, actions[0]), actions[1..], calls[1..])))
  }

  lemma PassedIsRead(img: Image, strings: map<nat, Octets>, a: Action, piece: Piece)
    requires Represents(img, strings) && Puts(a) && Passes(img.mem, strings, a, piece)
    ensures Operand(img.mem, a) == Some(Content(strings, piece))
  {
    hide StringAt, FromLittleEndian, CLength;
    if piece.Slice? {
      assert Stands(img, piece.header, strings[piece.header]);
      SourceInsideString(img, piece.header, strings[piece.header], piece.from, piece.n);
    }
  }

  lemma StoreAdvances(img: Image, after: Image, strings: map<nat, Octets>, a: Action)
    requires Represents(img, strings) && Admissible(img, strings, a) && Step(img, a) == Ok(after) && OnString(a)
    ensures var value := NewValue(a, Operand(img.mem, a).value, Old(strings, a.dest));
            && Meaning(img, strings, a) == strings[a.dest := value]
            && after.next == img.next + RoundUp(BufferSize(a, value))
  {
    assert ARENA_END <= |img.mem|;
    hide Represents, Admissible, StringAt, Decodable, Operand, NewValue, BufferSize, RoundUp, Step, StringCall;
    hide Meaning, Old, Extends;
    OldIsRead(img, strings, a);
    StepIsCall(img, after, a);
    CallAdvances(img, after, a, Operand(img.mem, a).value, Old(strings, a.dest));
    StringMeaning(img, strings, a);
  }

  lemma StringMeaning(img: Image, strings: map<nat, Octets>, a: Action)
    requires ARENA_END <= |img.mem| && Step(img, a).Ok? && OnString(a) && Operand(img.mem, a).Some?
    ensures Meaning(img, strings, a) == strings[a.dest := NewValue(a, Operand(img.mem, a).value, Old(strings, a.dest))]
  {
    hide Step, Operand, NewValue;
  }

  lemma StepIsCall(img: Image, after: Image, a: Action)
    requires ARENA_END <= |img.mem| && Step(img, a) == Ok(after) && OnString(a)
    ensures Operand(img.mem, a).Some? && StringCall(img, a, Operand(img.mem, a).value) == Ok(after)
  {
    hide Operand, StringCall;
  }

  lemma OldIsRead(img: Image, strings: map<nat, Octets>, a: Action)
    requires Represents(img, strings) && Admissible(img, strings, a) && OnString(a)
    ensures Extends(a) ==> Decodable(img.mem, a.dest) && StringAt(img.mem, a.dest) == Old(strings, a.dest)
  {
    hide FromLittleEndian;
    assert a.dest in strings ==> Stands(img, a.dest, strings[a.dest]);
  }

  lemma CallAdvances(img: Image, after: Image, a: Action, operand: Octets, old_: Octets)
    requires ARENA_END <= |img.mem| && OnString(a) && StringCall(img, a, operand) == Ok(after)
    requires Extends(a) ==> Decodable(img.mem, a.dest) && StringAt(img.mem, a.dest) == old_
    ensures after.next == img.next + RoundUp(BufferSize(a, NewValue(a, operand, old_)))
  {
    hide StringAt, OnHeap, Data, Length, WithHeader, Write, RoundUp;
  }

  lemma PutIsMeaning(strings: map<nat, Octets>, a: Action, operand: Octets, next: nat, piece: Piece)
    requires Puts(a) && Known(strings, piece) && operand == Content(strings, piece)
    ensures var value := NewValue(a, operand, Old(strings, a.dest));
            Applied(Pure(strings, next), Put(a.dest, piece, Appends(a)))
            == Pure(strings[a.dest := value], next + RoundUp(BufferSize(a, value)))
  {
    assert [] + Content(strings, piece) == Content(strings, piece);
    hide Content;
  }

  lemma SetIsMeaning(strings: map<nat, Octets>, a: Action, next: nat)
    requires a.Resize? || a.ResizeEven?
    ensures var value := NewValue(a, [], Old(strings, a.dest));
            Applied(Pure(strings, next), SetSize(a.dest, a.n, a.c, a.ResizeEven?))
            == Pure(strings[a.dest := value], next + RoundUp(BufferSize(a, value)))
  {}

  lemma PutCall(img: Image, after: Image, strings: map<nat, Octets>, a: Action, piece: Piece)
    requires Represents(img, strings) && Admissible(img, strings, a) && Step(img, a) == Ok(after)
    requires Puts(a) && Passes(img.mem, strings, a, piece) && Known(strings, piece)
    ensures Applied(Pure(strings, img.next), Put(a.dest, piece, Appends(a)))
         == Pure(Meaning(img, strings, a), after.next)
  {
    hide Represents, Admissible, Step, Meaning, Operand, Passes, Content, Applied, NewValue, BufferSize, RoundUp, Known;
    StoreAdvances(img, after, strings, a);
    PassedIsRead(img, strings, a, piece);
    PutIsMeaning(strings, a, Operand(img.mem, a).value, img.next, piece);
  }

  lemma SetCall(img: Image, after: Image, strings: map<nat, Octets>, a: Action)
    requires Represents(img, strings) && Admissible(img, strings, a) && Step(img, a) == Ok(after)
    requires a.Resize? || a.ResizeEven?
    ensures Applied(Pure(strings, img.next), SetSize(a.dest, a.n, a.c, a.ResizeEven?))
         == Pure(Meaning(img, strings, a), after.next)
  {
    hide Represents, Admissible, Step, Meaning, Applied, NewValue, BufferSize, RoundUp;
    StoreAdvances(img, after, strings, a);
    SetIsMeaning(strings, a, img.next);
  }

  lemma CopyCall(img: Image, after: Image, strings: map<nat, Octets>, a: Action)
    requires Represents(img, strings) && Admissible(img, strings, a) && Step(img, a) == Ok(after)
    requires a.Copy? && a.from in strings
    ensures Applied(Pure(strings, img.next), CopyOf(a.dest, a.from)) == Pure(Meaning(img, strings, a), after.next)
  {
    hide Represents, Admissible, Step, Meaning, RoundUp, StringAt, Decodable;
    StoreAdvances(img, after, strings, a);
    CopyReads(img, strings, a.from);
  }

  lemma RawCallIsMeaning(img: Image, after: Image, strings: map<nat, Octets>, a: Action)
    requires ARENA_END <= |img.mem| && Step(img, a) == Ok(after) && !OnString(a)
    ensures Pure(Meaning(img, strings, a), after.next)
         == Applied(Pure(strings, img.next), if a.Freeze? then Snap(a.address, a.size) else Raw)
  {
    hide Write, Snapshot;
  }

  /** The call does to the map what the action does to memory. */
  lemma CallIsMeaning(img: Image, after: Image, strings: map<nat, Octets>, a: Action, call: Call)
    requires Represents(img, strings) && Admissible(img, strings, a) && Step(img, a) == Ok(after)
    requires Denotes(img.mem, strings, a, call)
    ensures Meant(strings, call)
    ensures Applied(Pure(strings, img.next), call) == Pure(Meaning(img, strings, a), after.next)
  {
    assert ARENA_END <= |img.mem|;
    hide Represents, Admissible, Step, Meaning, Applied, Operand;
    match call {
      case Put(_, piece, _) => PutCall(img, after, strings, a, piece);
      case SetSize(_, _, _, _) => SetCall(img, after, strings, a);
      case CopyOf(_, _) => CopyCall(img, after, strings, a);
      case _ => RawCallIsMeaning(img, after, strings, a);
    }
  }

  lemma CopyReads(img: Image, strings: map<nat, Octets>, from: nat)
    requires Represents(img, strings) && from in strings
    ensures Decodable(img.mem, from) && StringAt(img.mem, from) == strings[from]
  {
    assert Stands(img, from, strings[from]);
  }

  /** Over any run of the adapters on any set of string headers, decoding every header from raw
      memory gives exactly the string the pure map holds, sources inside any of the strings
      included. */
  lemma {:induction false} RunRefines(img: Image, strings: map<nat, Octets>, actions: seq<Action>, calls: seq<Call>)
    requires Represents(img, strings) && RunAdmissible(img, strings, actions) && Run(img, actions).Ok?
    requires Denoting(img, strings, actions, calls)
    ensures var pure := PureRun(Pure(strings, img.next), calls);
            Represents(Run(img, actions).value, pure.strings) && Run(img, actions).value.next == pure.next
    decreases |actions|
  {
    assert ARENA_END <= |img.mem|;
    hide Represents, Admissible, Step, Meaning, Denotes, Applied;
    if actions != [] {
      var after := Step(img, actions[0]).value;
      MeaningStands(img, after, strings, actions[0]);
      CallIsMeaning(img, after, strings, actions[0], calls[0]);
      RunRefines(after, Meaning(img, strings, actions[0]), actions[1..], calls[1..]);
    }
  }

  /** From memory without strings, which `__init` turns into headers one by one. */
  lemma FromNothing(img: Image, actions: seq<Action>, calls: seq<Call>)
    requires img.next < ARENA_END <= |img.mem|
    requires RunAdmissible(img, map[], actions) && Run(img, actions).Ok? && Denoting(img, map[], actions, calls)
    ensures Represents(Run(img, actions).value, PureRun(Pure(map[], img.next), calls).strings)
  {
    NoStrings(img);
    hide Represents, RunAdmissible, Denoting, Run, PureRun;
    RunRefines(img, map[], actions, calls);
  }

  /** Every admissible run has such calls: what is not a copy can at least be given by its bytes. */
  lemma {:induction false} EveryRunDenoted(img: Image, strings: map<nat, Octets>, actions: seq<Action>)
    returns (calls: seq<Call>)
    requires Represents(img, strings) && RunAdmissible(img, strings, actions) && Run(img, actions).Ok?
    ensures Denoting(img, strings, actions, calls)
    decreases |actions|
  {
    calls := [];
    if actions != [] {
      var after := Step(img, actions[0]).value;
      MeaningStands(img, after, strings, actions[0]);
      var call := SomeCall(img, strings, actions[0]);
      hide Represents, Admissible, Step, Meaning, Denotes;
      var rest := EveryRunDenoted(after, Meaning(img, strings, actions[0]), actions[1..]);
      calls := [call] + rest;
      assert calls[1..] == rest;
    }
  }

  lemma SomeCall(img: Image, strings: map<nat, Octets>, a: Action) returns (call: Call)
    requires ARENA_END <= |img.mem| && Admissible(img, strings, a) && Step(img, a).Ok?
    ensures Denotes(img.mem, strings, a, call)
  {
    hide StringAt, FromLittleEndian, CLength, Stands, KeptApart, StringCall, RawCall;
    match a {
      case Resize(dest, n, c) => call := SetSize(dest, n, c, false);
      case ResizeEven(dest, n, c) => call := SetSize(dest, n, c, true);
      case Copy(dest, from) => call := CopyOf(dest, from);
      case Freeze(address, size) => call := Snap(address, size);
      case Move(_, _, _, _) => call := Raw;
      case Fill(_, _, _) => call := Raw;
      case _ => call := Put(a.dest, Given(Operand(img.mem, a).value), Appends(a));
    }
  }

  // ------------------------------------------------------------ byte by byte

  /** The reader of C strings finds the first NUL, if there is one in reach. */
  lemma {:induction false} CLengthIsFirstNul(m: Octets, a: nat, left: nat, n: nat)
    ensures CLength(m, a, left) == Some(n)
       <==> n < left && a + n < |m| && m[a + n] == 0 && forall i :: a <= i < a + n ==> m[i] != 0
    decreases left
  {
    if left > 0 && a < |m| && m[a] != 0 {
      if n > 0 {
        CLengthIsFirstNul(m, a + 1, left - 1, n - 1);
      }
    }
  }

  /** `s` is what memory holds from `a` on, up to a NUL when `nul` is set. */
  predicate HeldAt(m: Octets, a: nat, s: Octets, nul: bool) {
    && (s != [] ==> a + |s| <= |m|)
    && (forall i :: 0 <= i < |s| ==> s[i] == m[a + i])
    && (nul ==> a + |s| < |m| && m[a + |s|] == 0 && forall i :: 0 <= i < |s| ==> s[i] != 0)
  }

  predicate TakesC(a: Action) {
    a.AssignC? || a.AppendC?
  }

  lemma OperandBytes(m: Octets, a: Action)
    requires Puts(a) && Operand(m, a).Some?
    ensures HeldAt(m, a.src, Operand(m, a).value, TakesC(a))
    ensures !TakesC(a) ==> |Operand(m, a).value| == a.n
  {
    if TakesC(a) {
      CLengthIsFirstNul(m, a.src, LONGEST, |Operand(m, a).value|);
    }
  }

  /** The bytes a string adapter leaves in the decoded destination: those at the source, after the
      old string where it appends; the string copied; or the beginning of the old string and then
      the fill. */
  lemma AdapterBytes(img: Image, after: Image, strings: map<nat, Octets>, a: Action)
    requires Represents(img, strings) && Admissible(img, strings, a) && Step(img, a) == Ok(after) && OnString(a)
    ensures Decodable(after.mem, a.dest)
    ensures var s, before := StringAt(after.mem, a.dest), Old(strings, a.dest);
            match a
            case Copy(_, from) => s == strings[from]
            case Resize(_, n, c) => |s| == n && forall i :: 0 <= i < n ==> s[i] == if i < |before| then before[i] else c
            case ResizeEven(_, n, c) =>
              |s| == n && forall i :: 0 <= i < n ==> s[i] == if i < |before| then before[i] else c
            case Append(_, src, n) =>
              before <= s && |s| == |before| + n && HeldAt(img.mem, src, s[|before|..], false)
            case AppendC(_, src) => before <= s && HeldAt(img.mem, src, s[|before|..], true)
            case AssignC(_, src) => HeldAt(img.mem, src, s, true)
            case Assign(_, src, n) => |s| == n && HeldAt(img.mem, src, s, false)
            case Init(_, src, n) => |s| == n && HeldAt(img.mem, src, s, false)
  {
    DestinationHolds(img, after, strings, a);
    StepIsCall(img, after, a);
    if Puts(a) {
      OperandBytes(img.mem, a);
    } else if a.Copy? {
      CopyReads(img, strings, a.from);
    }
    hide Represents, Admissible, Step, StringCall, StringAt, Decodable, HeldAt, CLength;
    var s, operand := StringAt(after.mem, a.dest), Operand(img.mem, a).value;
    assert Appends(a) ==> s[|Old(strings, a.dest)|..] == operand;
  }

  lemma DestinationHolds(img: Image, after: Image, strings: map<nat, Octets>, a: Action)
    requires Represents(img, strings) && Admissible(img, strings, a) && Step(img, a) == Ok(after) && OnString(a)
    ensures Decodable(after.mem, a.dest) && Operand(img.mem, a).Some?
    ensures StringAt(after.mem, a.dest) == NewValue(a, Operand(img.mem, a).value, Old(strings, a.dest))
  {
    assert ARENA_END <= |img.mem|;
    hide Admissible, Step, StringAt, Operand, NewValue;
    MeaningStands(img, after, strings, a);
    StepIsCall(img, after, a);
    StringMeaning(img, strings, a);
    var all := Meaning(img, strings, a);
    assert Stands(after, a.dest, all[a.dest]);
  }

  /** How a string is stored: the capacity, odd, the length and the address in three words, and at
      the fresh address the bytes and a NUL. */
  lemma StoreLayout(img: Image, dest: nat, value: Octets, size: nat)
    requires |value| < size && Allocatable(img, size) && ARENA_END <= |img.mem| && Settled(img, dest, HEADER)
    ensures var m := Store(img, dest, value, size).mem;
            && FromLittleEndian(m[dest..dest + 8]) == size / 2 * 2 + 1
            && FromLittleEndian(m[dest + 8..dest + 16]) == |value|
            && FromLittleEndian(m[dest + 16..dest + 24]) == img.next
            && (forall i :: 0 <= i < |value| ==> m[img.next + i] == value[i]) && m[img.next + |value|] == 0
  {
    hide WithHeader, LittleEndian, FromLittleEndian, Write, RoundUp, Pow256;
    var p := img.next;
    var m := Write(img.mem, p, value + [0]);
    var w := WithHeader(m, dest, size, |value|, p);
    assert Store(img, dest, value, size).mem == w;
    WordsWritten(m, dest, size, |value|, p);
    ReadWritten(img.mem, p, value + [0]);
    hide Store, Read;
    BufferStays(m, w, p, value, dest);
  }

  lemma BufferStays(m: Octets, w: Octets, p: nat, value: Octets, dest: nat)
    requires p + |value| + 1 <= |m| == |w| && Apart(p, |value| + 1, dest, HEADER)
    requires forall i :: 0 <= i < |w| && !(dest <= i < dest + HEADER) ==> w[i] == m[i]
    requires Read(m, p, |value| + 1) == value + [0]
    ensures (forall i :: 0 <= i < |value| ==> w[p + i] == value[i]) && w[p + |value|] == 0
  {
    var s := Read(m, p, |value| + 1);
    forall i | 0 <= i <= |value|
      ensures w[p + i] == s[i]
    {
      assert s[i] == m[p + i];
    }
    assert s[|value|] == 0;
  }

  lemma WordsWritten(m: Octets, dest: nat, size: nat, length: nat, p: nat)
    requires Readable(m, dest, HEADER) && size < 0xFFFF_FFFF_FFFF_FFFF
    requires length < 0x1_0000_0000_0000_0000 && p < 0x1_0000_0000_0000_0000
    ensures var w := WithHeader(m, dest, size, length, p);
            && FromLittleEndian(w[dest..dest + 8]) == size / 2 * 2 + 1
            && FromLittleEndian(w[dest + 8..dest + 16]) == length && FromLittleEndian(w[dest + 16..dest + 24]) == p
            && |w| == |m| && forall i :: 0 <= i < |w| && !(dest <= i < dest + HEADER) ==> w[i] == m[i]
  {
    HeaderWritten(m, dest, size, length, p);
    EightBytes();
    var tag, words, pointer := LittleEndian(Odd(size), 8), LittleEndian(length, 8), LittleEndian(p, 8);
    LittleEndianRoundTrip(Odd(size), 8);
    LittleEndianRoundTrip(length, 8);
    LittleEndianRoundTrip(p, 8);
    assert Odd(size) == size / 2 * 2 + 1;
    hide LittleEndian, FromLittleEndian, Odd;
    var m1 := Write(m, dest, tag);
    var m2 := Write(m1, dest + 8, words);
    var w := Write(m2, dest + 16, pointer);
    assert w[dest..dest + 8] == tag;
    assert w[dest + 8..dest + 16] == words;
    assert w[dest + 16..dest + 24] == pointer;
  }

  /** The inline form: twice the length in octet 0, which is even, and the bytes right after it. */
  lemma InlineDecodes(m: Octets, h: nat, s: Octets)
    requires Readable(m, h, HEADER) && |s| <= 22
    requires m[h] == 2 * |s| && forall i :: 0 <= i < |s| ==> m[h + 1 + i] == s[i]
    ensures Decodable(m, h) && StringAt(m, h) == s
  {}

  // -------------------------------------------------------------- snapshots

  /** An action whose destination is another header leaves this one's string as it is. */
  predicate Spares(a: Action, h: nat) {
    OnString(a) ==> a.dest != h
  }

  lemma {:induction false} ReplaySpares(img: Image, strings: map<nat, Octets>, actions: seq<Action>, h: nat)
    requires ARENA_END <= |img.mem| && h in strings && h < img.next
    requires forall i :: 0 <= i < |actions| ==> Spares(actions[i], h)
    ensures h in Replay(img, strings, actions) && Replay(img, strings, actions)[h] == strings[h]
    decreases |actions|
  {
    hide StringAt, FromLittleEndian;
    if actions != [] && Step(img, actions[0]).Ok? {
      assert Spares(actions[0], h);
      assert forall i :: 0 <= i < |actions[1..]| ==> actions[1..][i] == actions[i + 1];
      ReplaySpares(Step(img, actions[0]).value, Meaning(img, strings, actions[0]), actions[1..], h);
    }
  }

  /** A snapshot keeps standing for the strings at freeze time through every later run of actions
      on the originals: no adapter writes an old buffer in place. */
  lemma FrozenForever(img: Image, frozen: Image, end: Image, strings: map<nat, Octets>, address: nat, size: nat,
                      actions: seq<Action>, h: nat)
    requires Represents(img, strings) && Step(img, Freeze(address, size)) == Ok(frozen)
    requires h in strings && address <= h && h + HEADER <= address + size
    requires RunAdmissible(frozen, strings + Snapshot(strings, address, size, img.next), actions)
    requires Run(frozen, actions) == Ok(end)
    requires forall i :: 0 <= i < |actions| ==> Spares(actions[i], img.next + (h - address))
    ensures Stands(end, img.next + (h - address), strings[h])
  {
    hide Run, Step, StringAt, FromLittleEndian, OnHeap;
    var copied := strings + Snapshot(strings, address, size, img.next);
    var c := img.next + (h - address);
    FreezeStep(img, frozen, strings, address, size, h);
    RunStands(frozen, copied, actions);
    ReplaySpares(frozen, copied, actions, c);
  }

  lemma FreezeStep(img: Image, frozen: Image, strings: map<nat, Octets>, address: nat, size: nat, h: nat)
    requires Represents(img, strings) && Step(img, Freeze(address, size)) == Ok(frozen)
    requires h in strings && address <= h && h + HEADER <= address + size
    ensures Represents(frozen, strings + Snapshot(strings, address, size, img.next))
    ensures img.next + (h - address) < frozen.next
    ensures Holds(strings + Snapshot(strings, address, size, img.next), img.next + (h - address), strings[h])
  {
    hide Represents, Step, Snapshot, Effect, Holds, RoundUp;
    FreezeStands(img, frozen, strings, address, size);
    FreezeAdds(strings, address, size, img.next, h);
  }

  lemma FreezeStands(img: Image, frozen: Image, strings: map<nat, Octets>, address: nat, size: nat)
    requires Represents(img, strings) && Step(img, Freeze(address, size)) == Ok(frozen)
    ensures Represents(frozen, strings + Snapshot(strings, address, size, img.next))
    ensures frozen.next == img.next + RoundUp(size)
  {
    var a := Freeze(address, size);
    assert ARENA_END <= |img.mem|;
    hide Represents, Step, Snapshot, Operand, Effect, RoundUp;
    FreezeAdvances(img, frozen, address, size);
    SnapshotStep(img, frozen, strings, a);
    FreezeEffect(strings, address, size, Operand(img.mem, a).value, img.next);
  }

  lemma FreezeEffect(strings: map<nat, Octets>, address: nat, size: nat, operand: Octets, copy: nat)
    ensures Effect(strings, Freeze(address, size), operand, copy) == strings + Snapshot(strings, address, size, copy)
  {
    hide Snapshot;
  }

  lemma FreezeAdvances(img: Image, frozen: Image, address: nat, size: nat)
    requires ARENA_END <= |img.mem| && Step(img, Freeze(address, size)) == Ok(frozen)
    ensures frozen.next == img.next + RoundUp(size) && Operand(img.mem, Freeze(address, size)).Some?
  {
    hide Write;
  }

  predicate Holds(strings: map<nat, Octets>, h: nat, value: Octets) {
    h in strings && strings[h] == value
  }

  lemma FreezeAdds(strings: map<nat, Octets>, address: nat, size: nat, copy: nat, h: nat)
    requires h in strings && address <= h && h + HEADER <= address + size
    ensures Holds(strings + Snapshot(strings, address, size, copy), copy + (h - address), strings[h])
  {
    assert IsCopy(strings, address, size, copy, copy + (h - address));
  }

  // ------------------------------------------------------------ the emulator

  /** The emulated memory and the adapters that write it, each returning whether it completed;
      otherwise an exception has ended the emulation. */
  class Shell {
    var mem: array<byte>
    var next: nat

    ghost function Img(): Image
      reads this, mem
    {
      Image(mem[..], next)
    }

    /** Memory reaches beyond the arena. */
    ghost predicate Mapped()
      reads this
    {
      ARENA_END <= mem.Length
    }

    constructor (length: nat, start: nat)
      requires ARENA_END <= length && start < ARENA_END
      ensures Mapped() && fresh(mem) && next == start && mem.Length == length
    {
      mem := new byte[length];
      next := start;
    }

    method MemWrite(a: nat, s: Octets)
      requires a + |s| <= mem.Length
      modifies mem
      ensures mem[..] == Write(old(mem[..]), a, s)
    {
      ghost var before := mem[..];
      for i := 0 to |s|
        invariant mem[..] == Write(before, a, s[..i])
      {
        mem[a + i] := s[i];
      }
      assert s[..|s|] == s;
    }

    /** `wq` */
    method WriteQuad(a: nat, v: nat)
      requires a + 8 <= mem.Length
      modifies mem
      ensures mem[..] == Write(old(mem[..]), a, LittleEndian(v, 8))
    {
      MemWrite(a, LittleEndian(v, 8));
    }

    /** `alloc`: the address, and the bump; past the end of the arena its assertion fails. */
    method Alloc(size: nat) returns (address: Option<nat>)
      modifies this`next
      ensures next == old(next) + RoundUp(size)
      ensures address == if Allocatable(old(Img()), size) then Some(old(next)) else None
    {
      address := Some(next);
      next := next + (size + 15) / 16 * 16;
      if next >= ARENA_END {
        address := None;
      }
    }

    /** The length `cstring` finds. */
    method CString(a: nat) returns (length: Option<nat>)
      ensures length == CLength(mem[..], a, LONGEST)
    {
      var n := 0;
      while a + n < mem.Length && mem[a + n] != 0
        invariant n <= LONGEST
        invariant CLength(mem[..], a, LONGEST) == Advance(n, CLength(mem[..], a + n, LONGEST - n))
        decreases mem.Length - n
      {
        if n == LONGEST {
          return None;
        }
        n := n + 1;
      }
      length := if a + n < mem.Length && n < LONGEST then Some(n) else None;
    }

    /** The tail all string adapters share. */
    method StoreString(dest: nat, value: Octets, size: nat) returns (done: bool)
      requires Mapped() && |value| < size && dest + HEADER <= mem.Length
      modifies this`next, mem
      ensures Mapped() && mem == old(mem)
      ensures done == Allocatable(old(Img()), size)
      ensures done ==> Img() == Store(old(Img()), dest, value, size)
      ensures !done ==> mem[..] == old(mem[..])
    {
      var p := Alloc(size);
      if p == None {
        return false;
      }
      MemWrite(p.value, value + [0]);
      WriteQuad(dest, Odd(size));
      WriteQuad(dest + 8, |value|);
      WriteQuad(dest + 16, p.value);
      done := true;
    }

    method HookString(a: Action, operand: Octets) returns (done: bool)
      requires Mapped() && OnString(a)
      modifies this`next, mem
      ensures Mapped() && mem == old(mem)
      ensures done == StringCall(old(Img()), a, operand).Ok?
      ensures done ==> Img() == StringCall(old(Img()), a, operand).value
    {
      hide Store, StringAt, FromLittleEndian;
      if a.dest + HEADER > mem.Length {
        return false;
      }
      var value := NewValue(a, operand, []);
      if Extends(a) {
        var before := Load(a.dest);
        if before == None {
          return false;
        }
        value := NewValue(a, operand, before.value);
      }
      done := StoreString(a.dest, value, BufferSize(a, value));
    }

    method HookRaw(a: Action, operand: Octets) returns (done: bool)
      requires Mapped() && !OnString(a) && (a.Freeze? ==> |operand| == a.size)
      modifies this`next, mem
      ensures Mapped() && mem == old(mem)
      ensures done == RawCall(old(Img()), a, operand).Ok?
      ensures done ==> Img() == RawCall(old(Img()), a, operand).value
    {
      if a.Freeze? {
        var copy := Alloc(a.size);
        if copy == None {
          return false;
        }
        MemWrite(copy.value, operand);
      } else {
        if operand == [] {
          return true;
        }
        if a.to + |operand| > mem.Length {
          return false;
        }
        MemWrite(a.to, operand);
      }
      done := true;
    }

    /** The adapter for one intercepted call. */
    method Hook(a: Action) returns (done: bool)
      requires Mapped()
      modifies this`next, mem
      ensures Mapped() && mem == old(mem)
      ensures done == Step(old(Img()), a).Ok?
      ensures done ==> Img() == Step(old(Img()), a).value
    {
      hide StringCall, RawCall, StringAt;
      var operand := Fetch(a);
      if operand == None {
        return false;
      }
      if OnString(a) {
        done := HookString(a, operand.value);
      } else {
        done := HookRaw(a, operand.value);
      }
    }

    /** The string a header stands for, if it can be read. */
    method Load(h: nat) returns (s: Option<Octets>)
      ensures s == if Decodable(mem[..], h) then Some(StringAt(mem[..], h)) else None
    {
      if h + HEADER > mem.Length {
        return None;
      }
      ghost var m := mem[..];
      assert mem[h + 8..h + 16] == m[h + 8..h + 16] && mem[h + 16..h + 24] == m[h + 16..h + 24];
      var tag := mem[h];
      var length := if tag % 2 == 1 then FromLittleEndian(mem[h + 8..h + 16]) else tag / 2;
      var data := if tag % 2 == 1 then FromLittleEndian(mem[h + 16..h + 24]) else h + 1;
      s := if length == 0 then Some([])
           else if data + length <= mem.Length then Some(mem[data..data + length]) else None;
    }

    method Fetch(a: Action) returns (operand: Option<Octets>)
      ensures operand == Operand(mem[..], a)
    {
      match a {
        case Resize(_, _, _) => operand := Some([]);
        case ResizeEven(_, _, _) => operand := Some([]);
        case Fill(_, n, c) => operand := Some(seq(n, _ => c));
        case Copy(_, from) => operand := Load(from);
        case AssignC(_, src) =>
          var n := CString(src);
          operand := ReadSource(src, n);
        case AppendC(_, src) =>
          var n := CString(src);
          operand := ReadSource(src, n);
        case Assign(_, src, n) => operand := ReadSource(src, Some(n));
        case Append(_, src, n) => operand := ReadSource(src, Some(n));
        case Init(_, src, n) => operand := ReadSource(src, Some(n));
        case Move(_, src, n, room) =>
          if Overruns(n, room) {
            return None;
          }
          operand := ReadSource(src, Some(n));
        case Freeze(address, size) => operand := ReadSource(address, Some(size));
      }
    }

    method ReadSource(a: nat, n: Option<nat>) returns (s: Option<Octets>)
      ensures s == Source(mem[..], a, n)
    {
      if n == None {
        return None;
      }
      s := if n.value == 0 then Some([]) else if a + n.value <= mem.Length then Some(mem[a..a + n.value]) else None;
    }

    /** Any run of the adapters, up to the first exception. */
    method Execute(actions: seq<Action>) returns (done: bool)
      requires Mapped()
      modifies this`next, mem
      ensures done == Run(old(Img()), actions).Ok?
      ensures done ==> Img() == Run(old(Img()), actions).value
    {
      for i := 0 to |actions|
        invariant Mapped() && mem == old(mem)
        invariant Run(old(Img()), actions) == Run(Img(), actions[i..])
      {
        done := Hook(actions[i]);
        assert actions[i..][0] == actions[i] && actions[i..][1..] == actions[i + 1..];
        if !done {
          return;
        }
      }
      done := true;
    }
  }

  function Advance(n: nat, rest: Option<nat>): Option<nat> {
    match rest
    case None => None
    case Some(k) => Some(n + k)
  }
}

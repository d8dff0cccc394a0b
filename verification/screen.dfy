/**
  The monochrome 64 x 32 display: one bit per pixel, eight pixels per byte,
  the most significant bit leftmost, rows of eight bytes one after another.

  Pixel and byte indices are `bv16` and columns are `bv8`, so the wrap-around
  arithmetic of the draw loop is written exactly as the source writes it; all
  its intermediate values stay below 2^16, so `bv16` arithmetic agrees with
  the source's `unsigned int` arithmetic.

  `Put` is the byte-level XOR of the draw instruction, `DrawRow` is one
  iteration of its loop (two `Put`s, because a sprite row straddles two
  display bytes unless VX is a multiple of 8), and `DrawSprite` is the whole
  loop. `Covers` is an independent description of which pixels a sprite
  touches, stated with screen coordinates and wrap-around, and the
  `DrawSprite` lemmas prove the loop flips exactly those pixels and reports
  a collision exactly when one of them was lit.
 */
module Screen {
  import opened CpuDefs

  /** Whether column c of the byte b is set; column 0 is the most significant bit. */
  predicate BitAt(b: bv8, c: bv8)
    requires c < 8
  {
    b & (0x80 >> c) != 0
  }

  /** A column of a XOR is set when exactly one operand has it set. */
  lemma XorBit(u: bv8, v: bv8, c: bv8)
    requires c < 8
    ensures BitAt(u ^ v, c) == (BitAt(u, c) != BitAt(v, c))
  {
  }

  /** A column of an AND is set when both operands have it set. */
  lemma AndBit(u: bv8, v: bv8, c: bv8)
    requires c < 8
    ensures BitAt(u & v, c) == (BitAt(u, c) && BitAt(v, c))
  {
  }

  /** A column of an OR is set when either operand has it set. */
  lemma OrBit(u: bv8, v: bv8, c: bv8)
    requires c < 8
    ensures BitAt(u | v, c) == (BitAt(u, c) || BitAt(v, c))
  {
  }

  /** `s >> o` moves column c - o of s to column c. */
  lemma ShiftRightBit(s: bv8, o: bv8, c: bv8)
    requires o < 8 && c < 8
    ensures BitAt(s >> o, c) == (c >= o && BitAt(s, c - o))
  {
  }

  /**
    `s << (8 - o)`, truncated to a byte as the conversion to `unsigned char`
    does, moves column c + 8 - o of s to column c; for o = 0 nothing is left.
   */
  lemma ShiftLeftBit(s: bv8, o: bv8, c: bv8)
    requires o < 8 && c < 8
    ensures BitAt(s << (8 - o), c) == (c < o && BitAt(s, c + 8 - o))
  {
  }

  /** A nonzero byte has a set column. */
  lemma SomeBit(u: bv8) returns (c: bv8)
    requires u != 0
    ensures c < 8 && BitAt(u, c)
  {
    if BitAt(u, 0) { c := 0; }
    else if BitAt(u, 1) { c := 1; }
    else if BitAt(u, 2) { c := 2; }
    else if BitAt(u, 3) { c := 3; }
    else if BitAt(u, 4) { c := 4; }
    else if BitAt(u, 5) { c := 5; }
    else if BitAt(u, 6) { c := 6; }
    else { c := 7; }
  }

  /** A byte is determined by its eight columns. */
  lemma BitsDetermine(u: bv8, v: bv8)
    requires forall c: bv8 | c < 8 :: BitAt(u, c) == BitAt(v, c)
    ensures u == v
  {
    assert BitAt(u, 0) == BitAt(v, 0);
    assert BitAt(u, 1) == BitAt(v, 1);
    assert BitAt(u, 2) == BitAt(v, 2);
    assert BitAt(u, 3) == BitAt(v, 3);
    assert BitAt(u, 4) == BitAt(v, 4);
    assert BitAt(u, 5) == BitAt(v, 5);
    assert BitAt(u, 6) == BitAt(v, 6);
    assert BitAt(u, 7) == BitAt(v, 7);
  }

  /** Two 16-bit values with the same numeric value are equal. */
  lemma SameValue(p: bv16, q: bv16)
    requires p as int == q as int
    ensures p == q
  {
    assert (p as int) as bv16 == p;
    assert (q as int) as bv16 == q;
  }

  /** A display buffer of the fixed size. */
  predicate IsDisplay(d: seq<bv8>)
  {
    |d| == DisplaySize
  }

  /**
    Whether pixel p (of the W * H = 2048) is white. Pixel p is at column
    p % W and row p / W, so it sits in byte p / 8 at column p % 8.
   */
  predicate Lit(d: seq<bv8>, p: bv16)
    requires IsDisplay(d) && p < 2048
  {
    BitAt(d[p / 8], (p % 8) as bv8)
  }

  /** Bytes that agree at every index below j..256, counted from j, agree as sequence elements. */
  lemma BytesAgree(d: seq<bv8>, e: seq<bv8>, j: bv16)
    requires IsDisplay(d) && IsDisplay(e) && j <= 256
    requires forall i: bv16 | i < 256 :: d[i] == e[i]
    ensures forall i: int | j as int <= i < 256 :: d[i] == e[i]
    decreases 256 - j as int
  {
    if j < 256 {
      BytesAgree(d, e, j + 1);
      assert d[j] == e[j];
    }
  }

  /** Pixel 8 * j + c is column c of byte j. */
  lemma PixelOfByte(j: bv16, c: bv8)
    requires j < 256 && c < 8
    ensures j * 8 + c as bv16 < 2048
    ensures (j * 8 + c as bv16) / 8 == j && ((j * 8 + c as bv16) % 8) as bv8 == c
  {
  }

  /** Byte j of a display is determined by its eight pixels. */
  lemma ByteFromPixels(d: seq<bv8>, e: seq<bv8>, j: bv16)
    requires IsDisplay(d) && IsDisplay(e) && j < 256
    requires forall p: bv16 | p < 2048 :: Lit(d, p) == Lit(e, p)
    ensures d[j] == e[j]
  {
    forall c: bv8 | c < 8
      ensures BitAt(d[j], c) == BitAt(e[j], c)
    {
      PixelOfByte(j, c);
      assert Lit(d, j * 8 + c as bv16) == Lit(e, j * 8 + c as bv16);
    }
    BitsDetermine(d[j], e[j]);
  }

  /** A display is determined by which of its pixels are lit. */
  lemma DisplayExt(d: seq<bv8>, e: seq<bv8>)
    requires IsDisplay(d) && IsDisplay(e)
    requires forall p: bv16 | p < 2048 :: Lit(d, p) == Lit(e, p)
    ensures d == e
  {
    forall j: bv16 | j < 256
      ensures d[j] == e[j]
    {
      ByteFromPixels(d, e, j);
    }
    BytesAgree(d, e, 0);
  }

  /** The display after 00E0 and after initialisation: every pixel black. */
  function Blank(): (d: seq<bv8>)
    ensures IsDisplay(d)
    ensures forall p: bv16 | p < 2048 :: !Lit(d, p)
  {
    seq(DisplaySize, i => 0)
  }

  /** The colour of a white pixel in the 32-bit RGB frame. */
  const On: bv32 := 0xFFFFFF

  /** The colour pixel p must have in the frame. */
  function Color(d: seq<bv8>, p: bv16): bv32
    requires IsDisplay(d) && p < 2048
  {
    if Lit(d, p) then On else 0
  }

  /** The rendering formula `0xFFFFFF * ((b >> (7 - c)) & 1)` is white exactly for a set column. */
  lemma PixelColor(b: bv8, c: bv8)
    requires c < 8
    ensures On * (((b >> (7 - c)) & 1) as bv32) == if BitAt(b, c) then On else 0
  {
  }

  /** The first i entries of the frame show the first i pixels. */
  ghost predicate Shows(d: seq<bv8>, frame: seq<bv32>, i: bv16)
    requires IsDisplay(d) && i <= 2048
  {
    forall p: bv16 | p < i :: p as int < |frame| && frame[p] == Color(d, p)
  }

  lemma Successor(i: bv16)
    requires i < 2048
    ensures (i + 1) as int == i as int + 1
  {
  }

  lemma BelowSuccessor(p: bv16, i: bv16)
    requires p < i + 1 && i < 2048
    ensures p < i || p == i
  {
  }

  /** Appending the colour of pixel i extends a frame that shows the first i pixels. */
  lemma ShowsNext(d: seq<bv8>, frame: seq<bv32>, i: bv16, x: bv32)
    requires IsDisplay(d) && i < 2048 && |frame| == i as int
    requires Shows(d, frame, i) && x == Color(d, i)
    ensures |frame + [x]| == (i + 1) as int && Shows(d, frame + [x], i + 1)
  {
    Successor(i);
    forall p: bv16 | p < i + 1
      ensures p as int < |frame + [x]| && (frame + [x])[p] == Color(d, p)
    {
      BelowSuccessor(p, i);
      if p < i {
        assert p as int < |frame| && frame[p] == Color(d, p);
      } else {
        assert p == i;
      }
    }
  }

  /** RenderTo: the 32-bit frame shows every pixel of the display, white or black. */
  method RenderTo(d: seq<bv8>) returns (frame: seq<bv32>)
    requires IsDisplay(d)
    ensures |frame| == W * H
    ensures forall p: bv16 | p < 2048 :: frame[p] == if Lit(d, p) then On else 0
  {
    frame := [];
    var i: bv16 := 0;
    while i < 2048
      invariant i <= 2048 && |frame| == i as int
      invariant Shows(d, frame, i)
    {
      var pixel := On * (((d[i / 8] >> (7 - i % 8) as bv8) & 1) as bv32);
      PixelColor(d[i / 8], (i % 8) as bv8);
      ShowsNext(d, frame, i, pixel);
      frame := frame + [pixel];
      i := i + 1;
    }
  }

  /** The outcome of drawing: the new display and the collision byte. */
  datatype Drawn = Drawn(display: seq<bv8>, hit: bv8)

  /**
    The `put` helper: XOR b into byte a of the display, and return
    `((display[a] ^= b) ^ b) & b`.
   */
  function Put(d: seq<bv8>, a: bv16, b: bv8): (r: Drawn)
    requires IsDisplay(d) && a < 256
    ensures IsDisplay(r.display)
  {
    var v := d[a] ^ b;
    Drawn(d[a as int := v], (v ^ b) & b)
  }

  /** `put` flips byte a by b and leaves every other byte alone. */
  lemma PutAt(d: seq<bv8>, a: bv16, b: bv8, i: bv16)
    requires IsDisplay(d) && a < 256 && i < 256
    ensures Put(d, a, b).display[i] == d[i] ^ (if i == a then b else 0)
  {
    if i as int == a as int {
      SameValue(i, a);
    }
  }

  /** `put` reports the columns of b that were white in byte a: exactly those it turns black. */
  lemma PutHit(d: seq<bv8>, a: bv16, b: bv8)
    requires IsDisplay(d) && a < 256
    ensures Put(d, a, b).hit == d[a] & b
  {
  }

  /** Screen row of sprite row k: `(Vy + k) % H`. */
  function ScreenRow(vy: bv8, k: bv8): bv16
  {
    (vy as bv16 + k as bv16) % 32
  }

  /** The display byte of the first `put`: `((Vx + 0) % W + (Vy + k) % H * W) / 8`. */
  function FirstByte(vx: bv8, vy: bv8, k: bv8): (a: bv16)
    ensures a < 256
  {
    (vx as bv16 % 64 + ScreenRow(vy, k) * 64) / 8
  }

  /** The display byte of the second `put`: `((Vx + 7) % W + (Vy + k) % H * W) / 8`. */
  function SecondByte(vx: bv8, vy: bv8, k: bv8): (a: bv16)
    ensures a < 256
  {
    ((vx as bv16 + 7) % 64 + ScreenRow(vy, k) * 64) / 8
  }

  /** The two bytes of a row coincide exactly when VX is a multiple of 8. */
  lemma SameByte(vx: bv8, vy: bv8, k: bv8)
    ensures (vx % 8 == 0) == (FirstByte(vx, vy, k) == SecondByte(vx, vy, k))
  {
  }

  /** One iteration of the draw loop: sprite byte s as row k, both `put`s, their hits OR'd. */
  function DrawRow(d: seq<bv8>, vx: bv8, vy: bv8, k: bv8, s: bv8): (r: Drawn)
    requires IsDisplay(d)
    ensures IsDisplay(r.display)
  {
    var first := Put(d, FirstByte(vx, vy, k), s >> (vx % 8));
    var second := Put(first.display, SecondByte(vx, vy, k), s << (8 - vx % 8));
    Drawn(second.display, first.hit | second.hit)
  }

  /** What one row XORs into display byte i. */
  function RowMask(vx: bv8, vy: bv8, k: bv8, s: bv8, i: bv16): bv8
  {
    PairMask(FirstByte(vx, vy, k), s >> (vx % 8), SecondByte(vx, vy, k), s << (8 - vx % 8), i)
  }

  /** The sprite row that screen row `p / W` shows, counting from VY with wrap-around. */
  function RowOf(vy: bv8, p: bv16): bv16
  {
    (p / 64 - vy as bv16) % 32
  }

  /** The sprite column that screen column `p % W` shows, counting from VX with wrap-around. */
  function Col(vx: bv8, p: bv16): bv16
  {
    (p % 64 - vx as bv16) % 64
  }

  /**
    Sprite byte s drawn as row k at (VX, VY) covers pixel p: p lies on the
    k-th row below VY, within the eight columns right of VX, both counted
    with wrap-around, and s sets the matching column.
   */
  predicate RowCovers(vx: bv8, vy: bv8, k: bv8, s: bv8, p: bv16)
  {
    var c := Col(vx, p);
    RowOf(vy, p) == k as bv16 && c < 8 && BitAt(s, c as bv8)
  }

  lemma RowMatch(vy: bv8, k: bv8, p: bv16)
    requires k < 32 && p < 2048
    ensures (RowOf(vy, p) == k as bv16) == (p / 64 == ScreenRow(vy, k))
  {
  }

  lemma ByteMatch(vx: bv8, vy: bv8, k: bv8, p: bv16)
    requires p < 2048
    ensures (p / 8 == FirstByte(vx, vy, k)) == (p / 64 == ScreenRow(vy, k) && (p % 64) / 8 == (vx as bv16 % 64) / 8)
    ensures (p / 8 == SecondByte(vx, vy, k)) == (p / 64 == ScreenRow(vy, k) && (p % 64) / 8 == ((vx as bv16 + 7) % 64) / 8)
  {
  }

  lemma ColFirst(vx: bv8, p: bv16)
    requires (p % 64) / 8 == (vx as bv16 % 64) / 8
    ensures p % 8 >= vx as bv16 % 8 ==> Col(vx, p) == p % 8 - vx as bv16 % 8
    ensures p % 8 < vx as bv16 % 8 ==> Col(vx, p) >= 8
  {
  }

  lemma ColSecond(vx: bv8, p: bv16)
    requires vx % 8 != 0 && (p % 64) / 8 == ((vx as bv16 + 7) % 64) / 8
    ensures p % 8 < vx as bv16 % 8 ==> Col(vx, p) == p % 8 + 8 - vx as bv16 % 8
    ensures p % 8 >= vx as bv16 % 8 ==> Col(vx, p) >= 8
  {
  }

  lemma ColElse(vx: bv8, p: bv16)
    requires (p % 64) / 8 != (vx as bv16 % 64) / 8
    requires vx % 8 == 0 || (p % 64) / 8 != ((vx as bv16 + 7) % 64) / 8
    ensures Col(vx, p) >= 8
  {
  }

  lemma CoverFirst(vx: bv8, vy: bv8, k: bv8, s: bv8, p: bv16)
    requires k < 32 && p < 2048
    requires p / 8 == FirstByte(vx, vy, k)
    ensures RowCovers(vx, vy, k, s, p) == BitAt(RowMask(vx, vy, k, s, p / 8), (p % 8) as bv8)
  {
    RowMatch(vy, k, p);
    ByteMatch(vx, vy, k, p);
    ColFirst(vx, p);
    ShiftRightBit(s, vx % 8, (p % 8) as bv8);
  }

  lemma CoverSecond(vx: bv8, vy: bv8, k: bv8, s: bv8, p: bv16)
    requires k < 32 && p < 2048
    requires p / 8 == SecondByte(vx, vy, k) && vx % 8 != 0
    ensures RowCovers(vx, vy, k, s, p) == BitAt(RowMask(vx, vy, k, s, p / 8), (p % 8) as bv8)
  {
    RowMatch(vy, k, p);
    ByteMatch(vx, vy, k, p);
    ColSecond(vx, p);
    ShiftLeftBit(s, vx % 8, (p % 8) as bv8);
  }

  lemma CoverElse(vx: bv8, vy: bv8, k: bv8, s: bv8, p: bv16)
    requires k < 32 && p < 2048
    requires p / 8 != FirstByte(vx, vy, k) && (vx % 8 == 0 || p / 8 != SecondByte(vx, vy, k))
    ensures RowCovers(vx, vy, k, s, p) == BitAt(RowMask(vx, vy, k, s, p / 8), (p % 8) as bv8)
  {
    RowMatch(vy, k, p);
    ByteMatch(vx, vy, k, p);
    if p / 64 == ScreenRow(vy, k) {
      ColElse(vx, p);
    }
  }

  /**
    The byte-level masks of one row set exactly the pixels the row covers in
    screen coordinates: the shifts and the two byte addresses of the draw loop
    implement wrap-around at the right and bottom edges.
   */
  lemma CoverBit(vx: bv8, vy: bv8, k: bv8, s: bv8, p: bv16)
    requires k < 32 && p < 2048
    ensures RowCovers(vx, vy, k, s, p) == BitAt(RowMask(vx, vy, k, s, p / 8), (p % 8) as bv8)
  {
    if p / 8 == FirstByte(vx, vy, k) {
      CoverFirst(vx, vy, k, s, p);
    } else if vx % 8 != 0 && p / 8 == SecondByte(vx, vy, k) {
      CoverSecond(vx, vy, k, s, p);
    } else {
      CoverElse(vx, vy, k, s, p);
    }
  }

  /** One row XORs its mask into every display byte. */
  lemma DrawRowBytes(d: seq<bv8>, vx: bv8, vy: bv8, k: bv8, s: bv8, i: bv16)
    requires IsDisplay(d) && i < 256
    ensures DrawRow(d, vx, vy, k, s).display[i] == d[i] ^ RowMask(vx, vy, k, s, i)
  {
    var first := Put(d, FirstByte(vx, vy, k), s >> (vx % 8));
    PutAt(d, FirstByte(vx, vy, k), s >> (vx % 8), i);
    PutAt(first.display, SecondByte(vx, vy, k), s << (8 - vx % 8), i);
  }

  /** The collision byte of one row: the white columns under each of the two shifted parts. */
  lemma DrawRowHitBytes(d: seq<bv8>, vx: bv8, vy: bv8, k: bv8, s: bv8)
    requires IsDisplay(d)
    ensures DrawRow(d, vx, vy, k, s).hit == RowHit(d, vx, vy, k, s)
  {
    SameByte(vx, vy, k);
    var a1, a2 := FirstByte(vx, vy, k), SecondByte(vx, vy, k);
    var first := Put(d, a1, s >> (vx % 8));
    PutHit(d, a1, s >> (vx % 8));
    PutHit(first.display, a2, s << (8 - vx % 8));
    PutAt(d, a1, s >> (vx % 8), a2);
  }

  /** XORing m into the byte of pixel p flips p exactly when m sets p's column. */
  lemma XorPixel(d: seq<bv8>, e: seq<bv8>, m: bv8, p: bv16)
    requires IsDisplay(d) && IsDisplay(e) && p < 2048
    requires e[p / 8] == d[p / 8] ^ m
    ensures Lit(e, p) == (Lit(d, p) != BitAt(m, (p % 8) as bv8))
  {
    XorBit(d[p / 8], m, (p % 8) as bv8);
  }

  /** A display that differs from d by the row's masks differs exactly at the pixels the row covers. */
  lemma CoverPixel(d: seq<bv8>, e: seq<bv8>, vx: bv8, vy: bv8, k: bv8, s: bv8, p: bv16)
    requires IsDisplay(d) && IsDisplay(e) && k < 32 && p < 2048
    requires e[p / 8] == d[p / 8] ^ RowMask(vx, vy, k, s, p / 8)
    ensures Lit(e, p) == (Lit(d, p) != RowCovers(vx, vy, k, s, p))
  {
    XorPixel(d, e, RowMask(vx, vy, k, s, p / 8), p);
    CoverBit(vx, vy, k, s, p);
  }

  /** One row flips exactly the pixels it covers. */
  lemma DrawRowPixel(d: seq<bv8>, vx: bv8, vy: bv8, k: bv8, s: bv8, p: bv16)
    requires IsDisplay(d) && k < 32 && p < 2048
    ensures Lit(DrawRow(d, vx, vy, k, s).display, p) == (Lit(d, p) != RowCovers(vx, vy, k, s, p))
  {
    DrawRowBytes(d, vx, vy, k, s, p / 8);
    CoverPixel(d, DrawRow(d, vx, vy, k, s).display, vx, vy, k, s, p);
  }

  /**
    The XOR of byte b1 into byte a1 and of b2 into byte a2: what two `put`s
    in a row do to byte i.
   */
  function PairMask(a1: bv16, b1: bv8, a2: bv16, b2: bv8, i: bv16): bv8
  {
    (if i == a1 then b1 else 0) ^ (if i == a2 then b2 else 0)
  }

  /** Pixel 8 * j + c, whose colour is column c of byte j. */
  lemma PixelAt(d: seq<bv8>, j: bv16, c: bv8) returns (p: bv16)
    requires IsDisplay(d) && j < 256 && c < 8
    ensures p < 2048 && p / 8 == j && (p % 8) as bv8 == c
    ensures Lit(d, p) == BitAt(d[j], c)
  {
    PixelOfByte(j, c);
    p := j * 8 + c as bv16;
  }

  lemma PairFirst(d: seq<bv8>, a1: bv16, b1: bv8, a2: bv16, b2: bv8, c: bv8) returns (p: bv16)
    requires IsDisplay(d) && a1 < 256 && a2 < 256 && c < 8
    requires a1 == a2 ==> b2 == 0
    requires BitAt(d[a1] & b1, c)
    ensures p < 2048 && BitAt(PairMask(a1, b1, a2, b2, p / 8), (p % 8) as bv8) && Lit(d, p)
  {
    AndBit(d[a1], b1, c);
    p := PixelAt(d, a1, c);
  }

  lemma PairSecond(d: seq<bv8>, a1: bv16, b1: bv8, a2: bv16, b2: bv8, c: bv8) returns (p: bv16)
    requires IsDisplay(d) && a1 < 256 && a2 < 256 && c < 8
    requires a1 == a2 ==> b2 == 0
    requires BitAt(d[a2] & b2, c)
    ensures p < 2048 && BitAt(PairMask(a1, b1, a2, b2, p / 8), (p % 8) as bv8) && Lit(d, p)
  {
    AndBit(d[a2], b2, c);
    p := PixelAt(d, a2, c);
  }

  /** A nonzero collision byte of a pair of `put`s names a white pixel the masks set. */
  lemma PairWitness(d: seq<bv8>, a1: bv16, b1: bv8, a2: bv16, b2: bv8) returns (p: bv16)
    requires IsDisplay(d) && a1 < 256 && a2 < 256
    requires a1 == a2 ==> b2 == 0
    requires (d[a1] & b1) | (d[a2] & b2) != 0
    ensures p < 2048 && BitAt(PairMask(a1, b1, a2, b2, p / 8), (p % 8) as bv8) && Lit(d, p)
  {
    var c := SomeBit((d[a1] & b1) | (d[a2] & b2));
    OrBit(d[a1] & b1, d[a2] & b2, c);
    if BitAt(d[a1] & b1, c) {
      p := PairFirst(d, a1, b1, a2, b2, c);
    } else {
      p := PairSecond(d, a1, b1, a2, b2, c);
    }
  }

  lemma HitFirst(d: seq<bv8>, a1: bv16, b1: bv8, a2: bv16, b2: bv8, c: bv8)
    requires IsDisplay(d) && a1 < 256 && a2 < 256 && c < 8
    requires BitAt(b1, c) && BitAt(d[a1], c)
    ensures (d[a1] & b1) | (d[a2] & b2) != 0
  {
    AndBit(d[a1], b1, c);
    OrBit(d[a1] & b1, d[a2] & b2, c);
  }

  lemma HitSecond(d: seq<bv8>, a1: bv16, b1: bv8, a2: bv16, b2: bv8, c: bv8)
    requires IsDisplay(d) && a1 < 256 && a2 < 256 && c < 8
    requires BitAt(b2, c) && BitAt(d[a2], c)
    ensures (d[a1] & b1) | (d[a2] & b2) != 0
  {
    AndBit(d[a2], b2, c);
    OrBit(d[a1] & b1, d[a2] & b2, c);
  }

  /** A white pixel that the pair of masks sets shows in the collision byte. */
  lemma PairHit(d: seq<bv8>, a1: bv16, b1: bv8, a2: bv16, b2: bv8, p: bv16)
    requires IsDisplay(d) && a1 < 256 && a2 < 256 && p < 2048
    requires a1 == a2 ==> b2 == 0
    requires BitAt(PairMask(a1, b1, a2, b2, p / 8), (p % 8) as bv8) && Lit(d, p)
    ensures (d[a1] & b1) | (d[a2] & b2) != 0
  {
    if p / 8 == a1 {
      HitFirst(d, a1, b1, a2, b2, (p % 8) as bv8);
    } else {
      HitSecond(d, a1, b1, a2, b2, (p % 8) as bv8);
    }
  }

  /** When both `put`s of a row hit the same byte, the second one XORs nothing. */
  lemma SameByteEmpty(vx: bv8, vy: bv8, k: bv8, s: bv8)
    ensures FirstByte(vx, vy, k) == SecondByte(vx, vy, k) ==> s << (8 - vx % 8) == 0
  {
    SameByte(vx, vy, k);
  }

  /** A pixel the row covers is set in the pair of masks of the row. */
  lemma CoverToMask(vx: bv8, vy: bv8, k: bv8, s: bv8, p: bv16)
    requires k < 32 && p < 2048 && RowCovers(vx, vy, k, s, p)
    ensures BitAt(PairMask(FirstByte(vx, vy, k), s >> (vx % 8), SecondByte(vx, vy, k), s << (8 - vx % 8), p / 8), (p % 8) as bv8)
  {
    CoverBit(vx, vy, k, s, p);
  }

  /** A pixel set in the pair of masks of the row is covered by the row. */
  lemma MaskToCover(vx: bv8, vy: bv8, k: bv8, s: bv8, p: bv16)
    requires k < 32 && p < 2048
    requires BitAt(PairMask(FirstByte(vx, vy, k), s >> (vx % 8), SecondByte(vx, vy, k), s << (8 - vx % 8), p / 8), (p % 8) as bv8)
    ensures RowCovers(vx, vy, k, s, p)
  {
    CoverBit(vx, vy, k, s, p);
  }

  /** The collision byte of one row, as the two `put`s compute it. */
  function RowHit(d: seq<bv8>, vx: bv8, vy: bv8, k: bv8, s: bv8): bv8
    requires IsDisplay(d)
  {
    (d[FirstByte(vx, vy, k)] & (s >> (vx % 8))) | (d[SecondByte(vx, vy, k)] & (s << (8 - vx % 8)))
  }

  /** A nonzero collision byte of a row names a pixel the row's masks set that was white. */
  lemma RowHitPair(d: seq<bv8>, vx: bv8, vy: bv8, k: bv8, s: bv8) returns (p: bv16)
    requires IsDisplay(d) && RowHit(d, vx, vy, k, s) != 0
    ensures p < 2048 && Lit(d, p)
    ensures BitAt(PairMask(FirstByte(vx, vy, k), s >> (vx % 8), SecondByte(vx, vy, k), s << (8 - vx % 8), p / 8), (p % 8) as bv8)
  {
    SameByteEmpty(vx, vy, k, s);
    p := PairWitness(d, FirstByte(vx, vy, k), s >> (vx % 8), SecondByte(vx, vy, k), s << (8 - vx % 8));
  }

  /** A nonzero collision byte of a row names a covered pixel that was white. */
  lemma RowHitWitness(d: seq<bv8>, vx: bv8, vy: bv8, k: bv8, s: bv8) returns (p: bv16)
    requires IsDisplay(d) && k < 32 && RowHit(d, vx, vy, k, s) != 0
    ensures p < 2048 && RowCovers(vx, vy, k, s, p) && Lit(d, p)
  {
    p := RowHitPair(d, vx, vy, k, s);
    MaskToCover(vx, vy, k, s, p);
  }

  /** A white pixel the row's masks set makes the collision byte of the row nonzero. */
  lemma PairRowHit(d: seq<bv8>, vx: bv8, vy: bv8, k: bv8, s: bv8, p: bv16)
    requires IsDisplay(d) && p < 2048 && Lit(d, p)
    requires BitAt(PairMask(FirstByte(vx, vy, k), s >> (vx % 8), SecondByte(vx, vy, k), s << (8 - vx % 8), p / 8), (p % 8) as bv8)
    ensures RowHit(d, vx, vy, k, s) != 0
  {
    SameByteEmpty(vx, vy, k, s);
    PairHit(d, FirstByte(vx, vy, k), s >> (vx % 8), SecondByte(vx, vy, k), s << (8 - vx % 8), p);
  }

  /** A covered pixel that was white makes the collision byte of its row nonzero. */
  lemma RowHitFromCover(d: seq<bv8>, vx: bv8, vy: bv8, k: bv8, s: bv8, p: bv16)
    requires IsDisplay(d) && k < 32 && p < 2048
    requires RowCovers(vx, vy, k, s, p) && Lit(d, p)
    ensures RowHit(d, vx, vy, k, s) != 0
  {
    CoverToMask(vx, vy, k, s, p);
    PairRowHit(d, vx, vy, k, s, p);
  }

  /** A collision reported by one row comes from a covered pixel that was white. */
  lemma DrawRowHitSome(d: seq<bv8>, vx: bv8, vy: bv8, k: bv8, s: bv8)
    requires IsDisplay(d) && k < 32 && DrawRow(d, vx, vy, k, s).hit != 0
    ensures exists p: bv16 | p < 2048 :: RowCovers(vx, vy, k, s, p) && Lit(d, p)
  {
    DrawRowHitBytes(d, vx, vy, k, s);
    var p := RowHitWitness(d, vx, vy, k, s);
  }

  /** A covered pixel that was white makes one row report a collision. */
  lemma DrawRowHitFrom(d: seq<bv8>, vx: bv8, vy: bv8, k: bv8, s: bv8)
    requires IsDisplay(d) && k < 32
    requires exists p: bv16 | p < 2048 :: RowCovers(vx, vy, k, s, p) && Lit(d, p)
    ensures DrawRow(d, vx, vy, k, s).hit != 0
  {
    var p: bv16 :| p < 2048 && RowCovers(vx, vy, k, s, p) && Lit(d, p);
    RowHitFromCover(d, vx, vy, k, s, p);
    DrawRowHitBytes(d, vx, vy, k, s);
  }

  /** One row reports a collision exactly when it covers a white pixel. */
  lemma DrawRowHit(d: seq<bv8>, vx: bv8, vy: bv8, k: bv8, s: bv8)
    requires IsDisplay(d) && k < 32
    ensures DrawRow(d, vx, vy, k, s).hit != 0
      <==> exists p: bv16 | p < 2048 :: RowCovers(vx, vy, k, s, p) && Lit(d, p)
  {
    if DrawRow(d, vx, vy, k, s).hit != 0 {
      DrawRowHitSome(d, vx, vy, k, s);
    }
    if exists p: bv16 | p < 2048 :: RowCovers(vx, vy, k, s, p) && Lit(d, p) {
      DrawRowHitFrom(d, vx, vy, k, s);
    }
  }

  /** Sprite row k: `memory[(I + k) & 0xFFF]`. */
  function SpriteByte(mem: seq<bv8>, i: bv16, k: bv8): bv8
    requires |mem| == MemorySize
  {
    mem[(i + k as bv16) & 0xFFF]
  }

  /**
    The draw loop: `for (j = 0; n--;) j |= put(..) | put(..)` draws sprite
    rows n - 1 down to 0 and ORs all collision bytes together.
   */
  function DrawSprite(d: seq<bv8>, vx: bv8, vy: bv8, mem: seq<bv8>, i: bv16, n: bv8): (r: Drawn)
    requires IsDisplay(d) && |mem| == MemorySize
    ensures IsDisplay(r.display)
    decreases n
  {
    if n == 0 then Drawn(d, 0)
    else
      var row := DrawRow(d, vx, vy, n - 1, SpriteByte(mem, i, n - 1));
      var rest := DrawSprite(row.display, vx, vy, mem, i, n - 1);
      Drawn(rest.display, row.hit | rest.hit)
  }

  /**
    An n-row sprite at (VX, VY) covers pixel p: counted with wrap-around, p
    lies on sprite row k < n below VY and in sprite column c < 8 right of VX,
    and sprite row k sets column c.
   */
  predicate Covers(vx: bv8, vy: bv8, mem: seq<bv8>, i: bv16, n: bv8, p: bv16)
    requires |mem| == MemorySize
  {
    var k := RowOf(vy, p);
    var c := Col(vx, p);
    k < n as bv16 && c < 8 && BitAt(SpriteByte(mem, i, k as bv8), c as bv8)
  }

  /** A pixel covered by the last row of a sprite is covered by the sprite, and by no earlier row. */
  lemma CoversLast(vx: bv8, vy: bv8, mem: seq<bv8>, i: bv16, n: bv8, p: bv16)
    requires |mem| == MemorySize && 0 < n <= 32
    requires RowCovers(vx, vy, n - 1, SpriteByte(mem, i, n - 1), p)
    ensures Covers(vx, vy, mem, i, n, p) && !Covers(vx, vy, mem, i, n - 1, p)
  {
  }

  /** A pixel covered by the first n - 1 rows is covered by the sprite, and not by its last row. */
  lemma CoversEarlier(vx: bv8, vy: bv8, mem: seq<bv8>, i: bv16, n: bv8, p: bv16)
    requires |mem| == MemorySize && 0 < n <= 32
    requires Covers(vx, vy, mem, i, n - 1, p)
    ensures Covers(vx, vy, mem, i, n, p) && !RowCovers(vx, vy, n - 1, SpriteByte(mem, i, n - 1), p)
  {
  }

  /** A pixel the sprite covers is covered by its last row or by the rows before it. */
  lemma CoversSplit(vx: bv8, vy: bv8, mem: seq<bv8>, i: bv16, n: bv8, p: bv16)
    requires |mem| == MemorySize && 0 < n <= 32
    requires Covers(vx, vy, mem, i, n, p)
    ensures Covers(vx, vy, mem, i, n - 1, p) || RowCovers(vx, vy, n - 1, SpriteByte(mem, i, n - 1), p)
  {
  }

  /** Covering by n rows is covering by the first n - 1 rows or by the last one, never both. */
  lemma CoversStep(vx: bv8, vy: bv8, mem: seq<bv8>, i: bv16, n: bv8, p: bv16)
    requires |mem| == MemorySize && 0 < n <= 32
    ensures Covers(vx, vy, mem, i, n, p)
      == (Covers(vx, vy, mem, i, n - 1, p) != RowCovers(vx, vy, n - 1, SpriteByte(mem, i, n - 1), p))
  {
    if RowCovers(vx, vy, n - 1, SpriteByte(mem, i, n - 1), p) {
      CoversLast(vx, vy, mem, i, n, p);
    } else if Covers(vx, vy, mem, i, n - 1, p) {
      CoversEarlier(vx, vy, mem, i, n, p);
    } else if Covers(vx, vy, mem, i, n, p) {
      CoversSplit(vx, vy, mem, i, n, p);
    }
  }

  /** Drawing a sprite flips exactly the pixels it covers. */
  lemma {:induction false} DrawSpritePixel(d: seq<bv8>, vx: bv8, vy: bv8, mem: seq<bv8>, i: bv16, n: bv8, p: bv16)
    requires IsDisplay(d) && |mem| == MemorySize && n <= 32 && p < 2048
    ensures Lit(DrawSprite(d, vx, vy, mem, i, n).display, p) == (Lit(d, p) != Covers(vx, vy, mem, i, n, p))
    decreases n
  {
    if n > 0 {
      var s := SpriteByte(mem, i, n - 1);
      var row := DrawRow(d, vx, vy, n - 1, s);
      DrawRowPixel(d, vx, vy, n - 1, s, p);
      DrawSpritePixel(row.display, vx, vy, mem, i, n - 1, p);
      CoversStep(vx, vy, mem, i, n, p);
    }
  }

  lemma OrNonzero(u: bv8, v: bv8)
    ensures (u | v != 0) == (u != 0 || v != 0)
  {
  }

  /** A collision reported by the draw loop comes from a covered pixel that was white. */
  lemma {:induction false} DrawSpriteWitness(d: seq<bv8>, vx: bv8, vy: bv8, mem: seq<bv8>, i: bv16, n: bv8) returns (p: bv16)
    requires IsDisplay(d) && |mem| == MemorySize && n <= 32
    requires DrawSprite(d, vx, vy, mem, i, n).hit != 0
    ensures p < 2048 && Covers(vx, vy, mem, i, n, p) && Lit(d, p)
    decreases n
  {
    var s := SpriteByte(mem, i, n - 1);
    var row := DrawRow(d, vx, vy, n - 1, s);
    var rest := DrawSprite(row.display, vx, vy, mem, i, n - 1);
    OrNonzero(row.hit, rest.hit);
    if row.hit != 0 {
      p := LastRowWitness(d, vx, vy, mem, i, n);
    } else {
      p := DrawSpriteWitness(row.display, vx, vy, mem, i, n - 1);
      EarlierRowsWitness(d, vx, vy, mem, i, n, p);
    }
  }

  /** A collision reported by the last row drawn comes from a pixel that row covers and that was white. */
  lemma LastRowWitness(d: seq<bv8>, vx: bv8, vy: bv8, mem: seq<bv8>, i: bv16, n: bv8) returns (p: bv16)
    requires IsDisplay(d) && |mem| == MemorySize && 0 < n <= 32
    requires DrawRow(d, vx, vy, n - 1, SpriteByte(mem, i, n - 1)).hit != 0
    ensures p < 2048 && Covers(vx, vy, mem, i, n, p) && Lit(d, p)
  {
    var s := SpriteByte(mem, i, n - 1);
    DrawRowHitBytes(d, vx, vy, n - 1, s);
    p := RowHitWitness(d, vx, vy, n - 1, s);
    CoversLast(vx, vy, mem, i, n, p);
  }

  /**
    A white pixel under the first n - 1 rows, found after the last row was
    drawn, was white before it too and is covered by the whole sprite.
   */
  lemma EarlierRowsWitness(d: seq<bv8>, vx: bv8, vy: bv8, mem: seq<bv8>, i: bv16, n: bv8, p: bv16)
    requires IsDisplay(d) && |mem| == MemorySize && 0 < n <= 32 && p < 2048
    requires Covers(vx, vy, mem, i, n - 1, p)
    requires Lit(DrawRow(d, vx, vy, n - 1, SpriteByte(mem, i, n - 1)).display, p)
    ensures Covers(vx, vy, mem, i, n, p) && Lit(d, p)
  {
    CoversEarlier(vx, vy, mem, i, n, p);
    DrawRowPixel(d, vx, vy, n - 1, SpriteByte(mem, i, n - 1), p);
  }

  /** A covered pixel that was white makes the draw loop report a collision. */
  lemma {:induction false} DrawSpriteHitFrom(d: seq<bv8>, vx: bv8, vy: bv8, mem: seq<bv8>, i: bv16, n: bv8, p: bv16)
    requires IsDisplay(d) && |mem| == MemorySize && n <= 32 && p < 2048
    requires Covers(vx, vy, mem, i, n, p) && Lit(d, p)
    ensures DrawSprite(d, vx, vy, mem, i, n).hit != 0
    decreases n
  {
    var s := SpriteByte(mem, i, n - 1);
    var row := DrawRow(d, vx, vy, n - 1, s);
    var rest := DrawSprite(row.display, vx, vy, mem, i, n - 1);
    OrNonzero(row.hit, rest.hit);
    CoversSplit(vx, vy, mem, i, n, p);
    if RowCovers(vx, vy, n - 1, s, p) {
      RowHitFromCover(d, vx, vy, n - 1, s, p);
      DrawRowHitBytes(d, vx, vy, n - 1, s);
    } else {
      DrawRowPixel(d, vx, vy, n - 1, s, p);
      DrawSpriteHitFrom(row.display, vx, vy, mem, i, n - 1, p);
    }
  }

  /**
    DXYN's effect on the display: every pixel the sprite covers is flipped,
    every other pixel is unchanged, and the collision byte is nonzero exactly
    when a covered pixel was white (and so has just turned black).
   */
  lemma DrawSpriteEffect(d: seq<bv8>, vx: bv8, vy: bv8, mem: seq<bv8>, i: bv16, n: bv8)
    requires IsDisplay(d) && |mem| == MemorySize && n <= 32
    ensures forall p: bv16 | p < 2048 ::
      Lit(DrawSprite(d, vx, vy, mem, i, n).display, p) == (Lit(d, p) != Covers(vx, vy, mem, i, n, p))
    ensures DrawSprite(d, vx, vy, mem, i, n).hit != 0
      <==> exists p: bv16 | p < 2048 :: Covers(vx, vy, mem, i, n, p) && Lit(d, p)
  {
    forall p: bv16 | p < 2048
      ensures Lit(DrawSprite(d, vx, vy, mem, i, n).display, p) == (Lit(d, p) != Covers(vx, vy, mem, i, n, p))
    {
      DrawSpritePixel(d, vx, vy, mem, i, n, p);
    }
    if DrawSprite(d, vx, vy, mem, i, n).hit != 0 {
      var p := DrawSpriteWitness(d, vx, vy, mem, i, n);
    }
    if exists p: bv16 | p < 2048 :: Covers(vx, vy, mem, i, n, p) && Lit(d, p) {
      var p: bv16 :| p < 2048 && Covers(vx, vy, mem, i, n, p) && Lit(d, p);
      DrawSpriteHitFrom(d, vx, vy, mem, i, n, p);
    }
  }

  /** Drawing the same sprite twice at the same place restores the display. */
  lemma DrawTwice(d: seq<bv8>, vx: bv8, vy: bv8, mem: seq<bv8>, i: bv16, n: bv8)
    requires IsDisplay(d) && |mem| == MemorySize && n <= 32
    ensures DrawSprite(DrawSprite(d, vx, vy, mem, i, n).display, vx, vy, mem, i, n).display == d
  {
    var once := DrawSprite(d, vx, vy, mem, i, n).display;
    var twice := DrawSprite(once, vx, vy, mem, i, n).display;
    forall p: bv16 | p < 2048
      ensures Lit(twice, p) == Lit(d, p)
    {
      DrawSpritePixel(d, vx, vy, mem, i, n, p);
      DrawSpritePixel(once, vx, vy, mem, i, n, p);
    }
    DisplayExt(twice, d);
  }
}

/**
 * The decision logic of the background display (`UpdatingBGDisplay`): the
 * power-of-two alignment of the image size, the pitch check of the buffer,
 * and how a loaded image is fixed up before it is shown.
 */
module BgDisplay {
  import opened Arith

  /** `n & ~mask` on Python's unbounded non-negative integers: the bits of `n` not set in `mask`. */
  function AndNot(n: nat, mask: nat): nat
    decreases n
  {
    if n == 0 then 0
    else 2 * AndNot(n / 2, mask / 2) + (if n % 2 == 1 && mask % 2 == 0 then 1 else 0)
  }

  function Pow2(k: nat): (r: nat)
    ensures r >= 1
  {
    if k == 0 then 1 else 2 * Pow2(k - 1)
  }

  /** Clearing bits never makes a number larger. */
  lemma {:induction false} AndNotAtMost(n: nat, mask: nat)
    ensures AndNot(n, mask) <= n
    decreases n
  {
    if n != 0 {
      AndNotAtMost(n / 2, mask / 2);
    }
  }

  /**
   * `_alignDown(n, alignTo)`: never above `n`; aligning to 1 keeps `n`, and
   * aligning to 0 gives 0 (the mask `~(0 - 1)` is empty).
   */
  function AlignDown(n: nat, alignTo: nat): (r: nat)
    ensures r <= n
    ensures alignTo == 1 ==> r == n
    ensures alignTo == 0 ==> r == 0
  {
    if alignTo == 0 then 0
    else if alignTo == 1 then
      AndNotZero(n);
      AndNot(n, 0)
    else
      AndNotAtMost(n, alignTo - 1);
      AndNot(n, alignTo - 1)
  }

  /**
   * `_alignUp(n, alignTo)`: never more than `alignTo - 1` above `n`;
   * aligning to 1 keeps `n`, and aligning to 0 gives 0.
   */
  function AlignUp(n: nat, alignTo: nat): (r: nat)
    ensures alignTo > 0 ==> r <= n + alignTo - 1
    ensures alignTo == 1 ==> r == n
    ensures alignTo == 0 ==> r == 0
  {
    if alignTo == 0 then 0
    else if alignTo == 1 then
      AndNotZero(n);
      AndNot(n, 0)
    else
      AndNotAtMost(n + alignTo - 1, alignTo - 1);
      AndNot(n + alignTo - 1, alignTo - 1)
  }

  lemma {:induction false} AndNotZero(n: nat)
    ensures AndNot(n, 0) == n
    decreases n
  {
    if n != 0 {
      AndNotZero(n / 2);
    }
  }

  lemma DivModStep(n: nat, k: nat)
    requires k >= 1
    ensures n % Pow2(k) == 2 * ((n / 2) % Pow2(k - 1)) + n % 2
  {
    var p := Pow2(k - 1);
    var q, r := n / 2, n % 2;
    var a, b := q / p, q % p;
    assert q == a * p + b;
    assert a * (2 * p) == 2 * (a * p);
    DivModUnique(n, 2 * p, a, 2 * b + r);
  }

  /** The linear step that assembles the low-bit clearing of `n` from that of `n / 2`. */
  lemma LowBitsCombine(n: int, half: int, low: int, lowHalf: int, bit: int)
    requires n == 2 * half + bit && low == 2 * lowHalf + bit
    ensures 2 * (half - lowHalf) == n - low
  {
  }

  /** Clearing the low `k` bits rounds down to a multiple of `2^k`. */
  lemma {:induction false} AndNotLowBits(n: nat, k: nat)
    ensures AndNot(n, Pow2(k) - 1) == n - n % Pow2(k)
    decreases n
  {
    var p := Pow2(k);
    if k == 0 {
      AndNotZero(n);
    } else if n == 0 {
      DivModUnique(0, p, 0, 0);
    } else {
      var p2 := Pow2(k - 1);
      var mask := p - 1;
      DivModUnique(mask, 2, p2 - 1, 1);
      assert AndNot(n, mask) == 2 * AndNot(n / 2, p2 - 1);
      AndNotLowBits(n / 2, k - 1);
      DivModStep(n, k);
      LowBitsCombine(n, n / 2, n % p, (n / 2) % p2, n % 2);
    }
  }

  /** Rounding `n` down to a multiple of `a` by subtracting the remainder. */
  lemma RoundDownArith(n: int, a: int)
    requires a > 0
    ensures var r := n - n % a;
      r % a == 0 && r <= n && n - a < r
  {
    var q, m := n / a, n % a;
    assert n == q * a + m;
    DivModUnique(n - m, a, q, 0);
  }

  /**
   * For a power-of-two `alignTo`, `_alignDown` gives the largest multiple
   * of `alignTo` not above `n`.
   */
  lemma AlignDownRounds(n: nat, k: nat)
    ensures var r := AlignDown(n, Pow2(k));
      r % Pow2(k) == 0 && r <= n && n - Pow2(k) < r
  {
    var a := Pow2(k);
    var r := AlignDown(n, a);
    assert r == n - n % a by {
      AndNotLowBits(n, k);
    }
    RoundDownArith(n, a);
  }

  /**
   * For a power-of-two `alignTo`, `_alignUp` gives the smallest multiple of
   * `alignTo` not below `n`.
   */
  lemma AlignUpRounds(n: nat, k: nat)
    ensures var r := AlignUp(n, Pow2(k));
      r % Pow2(k) == 0 && n <= r < n + Pow2(k)
  {
    var a := Pow2(k);
    var x := n + a - 1;
    var r := AlignUp(n, a);
    assert r == x - x % a by {
      AndNotLowBits(x, k);
    }
    RoundDownArith(x, a);
  }

  /** Clearing the same bits twice clears nothing more. */
  lemma {:induction false} AndNotIdempotent(n: nat, mask: nat)
    ensures AndNot(AndNot(n, mask), mask) == AndNot(n, mask)
    decreases n
  {
    if n != 0 {
      var h := AndNot(n / 2, mask / 2);
      var bit := if n % 2 == 1 && mask % 2 == 0 then 1 else 0;
      var r := 2 * h + bit;
      AndNotIdempotent(n / 2, mask / 2);
      if r != 0 {
        assert r / 2 == h && r % 2 == bit;
      } else {
        assert h == 0;
      }
    }
  }

  /** `_alignDown` of an aligned value gives it back, for every `alignTo`. */
  lemma AlignDownIdempotent(n: nat, alignTo: nat)
    ensures AlignDown(AlignDown(n, alignTo), alignTo) == AlignDown(n, alignTo)
  {
    if alignTo != 0 {
      AndNotIdempotent(n, alignTo - 1);
    }
  }

  /** The image side the display uses: the next smaller multiple of 16. */
  function DisplaySide(n: nat): (r: nat)
    ensures r % 16 == 0 && r <= n && n - 16 < r
  {
    AlignDownRounds(n, 4);
    AlignDown(n, 16)
  }

  /** `createBuffer`'s pitch: three bytes per pixel of a row. */
  function Pitch(imgw: nat): nat
  {
    imgw * 3
  }

  /** The pitch passes `createBuffer`'s assertion exactly when the width is a multiple of 32. */
  lemma PitchCheckIff(imgw: nat)
    ensures Pitch(imgw) % 32 == 0 <==> imgw % 32 == 0
  {
    if Pitch(imgw) % 32 == 0 {
      var q := Pitch(imgw) / 32;
      assert 3 * imgw == 32 * q;
      assert imgw == 32 * (11 * q - imgw);
    }
  }

  /** The display side is the requested side with its remainder modulo 16 taken off. */
  lemma DisplaySideSubtracts(w: nat)
    ensures DisplaySide(w) == w - w % 16
  {
    assert Pow2(4) == 16;
    AndNotLowBits(w, 4);
  }

  /** Taking off the remainder modulo 16 leaves 0 or 16 modulo 32, by the half `w` falls in. */
  lemma SideModulo32(w: nat)
    ensures (w - w % 16) % 32 == if w % 32 < 16 then 0 else 16
  {
    var q, r := w / 32, w % 32;
    assert w == q * 32 + r;
    if r < 16 {
      DivModUnique(w, 16, 2 * q, r);
      DivModUnique(w - w % 16, 32, q, 0);
    } else {
      DivModUnique(w, 16, 2 * q + 1, r - 16);
      DivModUnique(w - w % 16, 32, q, 16);
    }
  }

  /**
   * So the display constructor's buffer check passes exactly when the
   * requested width is less than 16 past a multiple of 32; the 16-alignment
   * alone does not ensure it (a width of 16 gives a pitch of 48).
   */
  lemma DisplayPitchCheck(w: nat)
    ensures Pitch(DisplaySide(w)) % 32 == 0 <==> w % 32 < 16
    ensures Pitch(DisplaySide(16)) == 48
  {
    var side := DisplaySide(w);
    PitchCheckIff(side);
    DisplaySideSubtracts(w);
    SideModulo32(w);
    DisplaySideSubtracts(16);
  }

  /** The size and pixel format of a PIL image. */
  datatype Image = Image(width: nat, height: nat, mode: string)

  /** The image `loadImg` hands back, and which of its fix-ups it applied. */
  datatype Loaded = Loaded(image: Image, resized: bool, converted: bool)

  /**
   * `loadImg`: an image smaller than the buffer in either dimension is
   * resized to exactly the buffer size; an image not in RGB mode is
   * converted to RGB.
   */
  function LoadImg(img: Image, imgw: nat, imgh: nat): (r: Loaded)
    ensures r.resized <==> img.width < imgw || img.height < imgh
    ensures r.converted <==> img.mode != "RGB"
  {
    var resized := img.width < imgw || img.height < imgh;
    var sized := if resized then img.(width := imgw, height := imgh) else img;
    var converted := sized.mode != "RGB";
    Loaded(if converted then sized.(mode := "RGB") else sized, resized, converted)
  }

  /**
   * What `loadImg` returns always fits the buffer: RGB, and at least the
   * buffer's size; a resized image has exactly that size (even in a
   * dimension that was large enough), and an image large enough keeps its size.
   */
  lemma LoadedImageFits(img: Image, imgw: nat, imgh: nat)
    ensures var r := LoadImg(img, imgw, imgh);
      r.image.mode == "RGB" && r.image.width >= imgw && r.image.height >= imgh &&
      (r.resized ==> r.image.width == imgw && r.image.height == imgh) &&
      (!r.resized ==> r.image.width == img.width && r.image.height == img.height)
  {
  }
}

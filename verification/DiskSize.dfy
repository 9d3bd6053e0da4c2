/** The size given to a new disk (pkg/bootc/bootc_disk.go), in int64 arithmetic. */
module DiskSize {
  import opened Common

  const MULTIPLIER := 2
  const MINIMUM := 10 * 1024 * 1024 * 1024
  const ALIGNMENT := 4096
  const TWO_63 := 0x8000_0000_0000_0000
  const TWO_64 := 0x1_0000_0000_0000_0000
  /** The largest aligned int64. */
  const LARGEST := TWO_63 - ALIGNMENT

  type int64 = x: int | -TWO_63 <= x < TWO_63

  /** Two's complement wrap-around of a machine operation. */
  function Wrap(x: int): int64 {
    (x + TWO_63) % TWO_64 - TWO_63
  }

  /** Remainder truncated toward zero. */
  function Rem(x: int, y: int): int
    requires y > 0
  {
    if x >= 0 then x % y else -((-x) % y)
  }

  /** The --disk-size option after parsing. */
  datatype Request = Default | Unparsable | Bytes(n: int64)

  function AlignTo(size: int64, a: int64): int64
    requires a > 0
  {
    var rem := Rem(size, a);
    if rem != 0 then Wrap(size + (a - rem)) else size
  }

  function Max(a: int, b: int): int { if a < b then b else a }

  /** What the three inputs ask for, before rounding. */
  function Wanted(imageSize: nat, request: Request): int {
    var least := Max(imageSize * MULTIPLIER, MINIMUM);
    if request.Bytes? then Max(least, request.n) else least
  }

  /** The size before rounding. */
  function Unrounded(imageSize: int64, request: Request): int64 {
    var doubled := Wrap(imageSize * MULTIPLIER);
    var least := if doubled < MINIMUM then MINIMUM else doubled;
    if request.Bytes? && least < request.n then request.n else least
  }

  /** What the program computes; None when the option does not parse. */
  function FinalSize(imageSize: int64, request: Request): Option<int64> {
    if request.Unparsable? then None else Some(AlignTo(Unrounded(imageSize, request), ALIGNMENT))
  }

  /** m is the least multiple of the alignment at or above x. */
  ghost predicate IsRoundedUp(x: int, m: int) {
    m % ALIGNMENT == 0 && x <= m && forall k {:trigger k % ALIGNMENT} :: k % ALIGNMENT == 0 && x <= k ==> m <= k
  }

  lemma RoundingUpIsUnique(x: int, m: int)
    ensures IsRoundedUp(x, m) <==> m % ALIGNMENT == 0 && x <= m < x + ALIGNMENT
  {
    if m % ALIGNMENT == 0 && x <= m < x + ALIGNMENT {
      forall k | k % ALIGNMENT == 0 && x <= k ensures m <= k {
        assert (m - k) % ALIGNMENT == 0;
      }
    }
    if m % ALIGNMENT == 0 && x + ALIGNMENT <= m {
      var k := m - ALIGNMENT;
      assert k % ALIGNMENT == 0 && x <= k;
    }
  }

  lemma AlignRoundsUp(size: int64)
    requires 0 <= size <= LARGEST
    ensures IsRoundedUp(size, AlignTo(size, ALIGNMENT))
  {
    RoundingUpIsUnique(size, AlignTo(size, ALIGNMENT));
  }

  /** Past the largest aligned int64 the rounding wraps to the least int64. */
  lemma AlignOverflows(size: int64)
    requires LARGEST < size
    ensures AlignTo(size, ALIGNMENT) == -9223372036854775808
  {
    assert LARGEST % ALIGNMENT == 0;
    assert size % ALIGNMENT == size - LARGEST;
  }

  /** The size is the least aligned one that satisfies all three inputs, exactly when
      their maximum leaves room for the rounding in an int64. */
  lemma FinalSizeIsLeastSufficient(imageSize: int64, request: Request)
    requires 0 <= imageSize && !request.Unparsable?
    ensures FinalSize(imageSize, request).Some?
    ensures IsRoundedUp(Wanted(imageSize, request), FinalSize(imageSize, request).value)
      <==> Wanted(imageSize, request) <= LARGEST
  {
    var want, size := Wanted(imageSize, request), Unrounded(imageSize, request);
    var got := FinalSize(imageSize, request).value;
    assert got == AlignTo(size, ALIGNMENT);
    if size <= LARGEST {
      AlignRoundsUp(size);
      RoundingUpIsUnique(size, got);
      assert LARGEST % ALIGNMENT == 0;
    } else {
      AlignOverflows(size);
    }
    if want <= LARGEST {
      assert size == want;
    } else {
      assert got < want;
    }
  }

  /** The same with the numbers of the source: twice the image size, 10 GiB, 4096. */
  lemma FinalSizeInNumbers(imageSize: int64, request: Request)
    requires 0 <= imageSize && !request.Unparsable?
    ensures var got := FinalSize(imageSize, request).value;
      var wanted := (x: int) => 2 * imageSize <= x && 10737418240 <= x && (request.Bytes? ==> request.n <= x);
      (got % 4096 == 0 && wanted(got) && forall k {:trigger wanted(4096 * k)} :: wanted(4096 * k) ==> got <= 4096 * k)
        <==> 2 * imageSize <= 9223372036854771712 && (request.Bytes? ==> request.n <= 9223372036854771712)
  {
    FinalSizeIsLeastSufficient(imageSize, request);
  }

  /** The overflows, exactly: an image of 2^62 bytes or more counts as an empty one, and a size
      past the largest aligned int64 becomes the least int64. */
  lemma OverflowsInNumbers(imageSize: int64, request: Request)
    requires 0 <= imageSize && !request.Unparsable?
    ensures 4611686018427387904 <= imageSize ==> FinalSize(imageSize, request) == FinalSize(0, request)
    ensures imageSize < 4611686018427387904 && 9223372036854771712 < 2 * imageSize ==>
      FinalSize(imageSize, request) == Some(-9223372036854775808)
    ensures request.Bytes? && 9223372036854771712 < request.n ==>
      FinalSize(imageSize, request) == Some(-9223372036854775808)
  {
    if Unrounded(imageSize, request) > LARGEST {
      AlignOverflows(Unrounded(imageSize, request));
    }
  }

  /** Larger inputs never give a smaller disk, as long as no rounding overflows. */
  lemma FinalSizeIsMonotone(s: int64, s': int64, r: Request, r': Request)
    requires 0 <= s <= s' && !r.Unparsable? && !r'.Unparsable?
    requires r.Bytes? ==> r'.Bytes? && r.n <= r'.n
    requires Wanted(s', r') <= LARGEST
    ensures FinalSize(s, r).value <= FinalSize(s', r').value
  {
    assert Wanted(s, r) <= Wanted(s', r');
    FinalSizeIsLeastSufficient(s, r);
    FinalSizeIsLeastSufficient(s', r');
    assert FinalSize(s', r').value % ALIGNMENT == 0;
  }

  /** Whatever overflows, a size that ftruncate accepts is aligned and at least the minimum. */
  lemma AcceptedSizeIsUsable(imageSize: int64, request: Request)
    requires FinalSize(imageSize, request).Some? && FinalSize(imageSize, request).value >= 0
    ensures FinalSize(imageSize, request).value % ALIGNMENT == 0
    ensures FinalSize(imageSize, request).value >= MINIMUM
  {
    var size := Unrounded(imageSize, request);
    if size <= LARGEST {
      AlignRoundsUp(size);
      RoundingUpIsUnique(size, AlignTo(size, ALIGNMENT));
    } else {
      AlignOverflows(size);
    }
  }

  method Align(size: int64, a: int64) returns (aligned: int64)
    requires a > 0
    ensures aligned == AlignTo(size, a)
  {
    aligned := size;
    var rem := Rem(aligned, a);
    if rem != 0 {
      aligned := Wrap(aligned + (a - rem));
    }
  }

  /** The sizing statements of bootcInstallImageToDisk. */
  method ComputeDiskSize(imageSize: int64, request: Request) returns (size: Option<int64>)
    ensures size == FinalSize(imageSize, request)
    ensures size.None? <==> request.Unparsable?
    ensures size.Some? && 0 <= imageSize && Wanted(imageSize, request) <= LARGEST ==>
      IsRoundedUp(Wanted(imageSize, request), size.value)
  {
    var bytes: int64 := Wrap(imageSize * MULTIPLIER);
    if bytes < MINIMUM {
      bytes := MINIMUM;
    }
    match request {
      case Default =>
      case Unparsable => return None;
      case Bytes(n) =>
        if bytes < n {
          bytes := n;
        }
    }
    bytes := Align(bytes, ALIGNMENT);
    if 0 <= imageSize {
      FinalSizeIsLeastSufficient(imageSize, request);
    }
    return Some(bytes);
  }
}

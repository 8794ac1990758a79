/** Verification of a staged firmware image, one chunk per tick. */
module OtaUpdater {
  import opened Gf2
  import opened Crc16
  import opened Wrappers

  const CHUNK_BYTES: nat := 4096

  datatype State = Idle | Verifying | Ready | Failed

  /** A verification in progress; image is the whole staged image. */
  datatype Check = Check(state: State, image: seq<Byte>, verified: nat, expected: Reg, running: Reg)

  function Fresh(image: seq<Byte>, expected: Reg): Check {
    Check(Verifying, image, 0, expected, INITIAL)
  }

  function Step(c: Check): Check
    requires c.verified <= |c.image|
  {
    if c.state != Verifying then c
    else
      var upTo := c.verified + Min(|c.image| - c.verified, CHUNK_BYTES);
      var running := Crc(c.running, c.image[c.verified..upTo]);
      c.(verified := upTo, running := running,
         state := if upTo < |c.image| then Verifying else if running == c.expected then Ready else Failed)
  }

  function Progress(c: Check): nat {
    if c.image == [] then 0 else c.verified * 100 / |c.image|
  }

  function Steps(c: Check, n: nat): (d: Check)
    requires c.verified <= |c.image|
    ensures d.verified <= |d.image| == |c.image|
  {
    if n == 0 then c else Step(Steps(c, n - 1))
  }

  function ChunkCount(bytes: nat): nat {
    (bytes + CHUNK_BYTES - 1) / CHUNK_BYTES
  }

  /** The verdict of checking the image in one go. */
  function Verdict(image: seq<Byte>, expected: Reg): State {
    if Crc(INITIAL, image) == expected then Ready else Failed
  }

  /** Where a check stands after n steps. */
  predicate Stands(c: Check, image: seq<Byte>, expected: Reg, n: nat) {
    && c.image == image && c.expected == expected
    && c.verified == Min(n * CHUNK_BYTES, |image|)
    && c.running == Crc(INITIAL, image[..c.verified])
    && c.state == if n < ChunkCount(|image|) then Verifying else Verdict(image, expected)
  }

  lemma StepAdvances(c: Check, image: seq<Byte>, expected: Reg, n: nat)
    requires image != [] && Stands(c, image, expected, n)
    ensures Stands(Step(c), image, expected, n + 1)
  {
    hide Crc, ChunkCount;
    CountReached(|image|, n);
    CountReached(|image|, n + 1);
    if c.state == Verifying {
      var upTo := Min((n + 1) * CHUNK_BYTES, |image|);
      ChunkAppends(image, c.verified, upTo);
      assert image[..|image|] == image;
    }
  }

  lemma ChunkAppends(image: seq<Byte>, from: nat, upTo: nat)
    requires from <= upTo <= |image|
    ensures Crc(INITIAL, image[..upTo]) == Crc(Crc(INITIAL, image[..from]), image[from..upTo])
  {
    assert image[..upTo] == image[..from] + image[from..upTo];
    CrcConcat(INITIAL, image[..from], image[from..upTo]);
  }

  /** Checking chunk by chunk takes one step per begun chunk, no more and no fewer, and ends with
      the verdict of the whole image's checksum. */
  lemma {:induction false} ChunkedIsWhole(image: seq<Byte>, expected: Reg, n: nat)
    requires image != []
    ensures Stands(Steps(Fresh(image, expected), n), image, expected, n)
  {
    if n == 0 {
      CountReached(|image|, 0);
      assert image[..0] == [];
    } else {
      hide Stands, Step;
      ChunkedIsWhole(image, expected, n - 1);
      StepAdvances(Steps(Fresh(image, expected), n - 1), image, expected, n - 1);
    }
  }

  lemma CountReached(bytes: nat, n: nat)
    ensures n < ChunkCount(bytes) <==> n * CHUNK_BYTES < bytes
  {
  }

  lemma ProgressGrows(bytes: nat, before: nat, after: nat)
    requires before <= after <= bytes && bytes > 0
    ensures before * 100 / bytes <= after * 100 / bytes <= 100
    ensures after * 100 / bytes == 100 <==> after == bytes
  {
    DivisionGrows(before * 100, after * 100, bytes);
    DivisionGrows(after * 100, bytes * 100, bytes);
    assert bytes * 100 / bytes == 100;
    if after < bytes {
      assert after * 100 < 100 * bytes;
      assert after * 100 / bytes < 100;
    }
  }

  lemma ProductGrows(p: int, q: int, d: nat)
    ensures p <= q ==> p * d <= q * d
  {
  }

  lemma DivisionGrows(a: nat, b: nat, d: nat)
    requires a <= b && d > 0
    ensures a / d <= b / d
  {
    var p, q := a / d, b / d;
    assert p * d <= a && b < (q + 1) * d;
    ProductGrows(q + 1, p, d);
  }

  /** Progress never falls, never exceeds 100, and shows 100 exactly when the verdict is in. */
  lemma ProgressIsHonest(image: seq<Byte>, expected: Reg, n: nat)
    requires image != []
    ensures var c, d := Steps(Fresh(image, expected), n), Steps(Fresh(image, expected), n + 1);
            && Progress(c) <= Progress(d) <= 100
            && (Progress(d) == 100 <==> d.state != Verifying)
  {
    hide Step, Crc;
    ChunkedIsWhole(image, expected, n);
    ChunkedIsWhole(image, expected, n + 1);
    CountReached(|image|, n + 1);
    var c, d := Steps(Fresh(image, expected), n), Steps(Fresh(image, expected), n + 1);
    ProgressGrows(|image|, c.verified, d.verified);
  }

  // ---- The updater object ----

  class OtaUpdater {
    var state: State
    var image: array?<Byte>
    var imageLen: nat
    var verified: nat
    var expectedCrc: Reg
    var runningCrc: Reg

    ghost predicate Valid()
      reads this
    {
      && verified <= imageLen
      && (image == null ==> imageLen == 0 && state == Idle)
      && (image != null ==> imageLen <= image.Length)
    }

    ghost function Abs(): Check
      requires Valid()
      reads this, image
    {
      Check(state, if image == null then [] else image[..imageLen], verified, expectedCrc, runningCrc)
    }

    constructor ()
      ensures Valid() && state == Idle && Progress(Abs()) == 0
    {
      state, image, imageLen, verified, expectedCrc, runningCrc := Idle, null, 0, 0, ZERO, INITIAL;
    }

    method Begin(staged: array?<Byte>, len: nat, expected: Reg) returns (status: Status)
      requires Valid() && (staged != null ==> len <= staged.Length)
      modifies this
      ensures Valid()
      ensures status == if staged == null || len == 0 then InvalidArgument
                        else if old(state) == Verifying then NotReady else Ok
      ensures status == Ok ==> Abs() == Fresh(staged[..len], expected)
      ensures status != Ok ==> Abs() == old(Abs())
    {
      if staged == null || len == 0 {
        return InvalidArgument;
      }
      if state == Verifying {
        return NotReady;
      }
      image, imageLen, verified, expectedCrc, runningCrc := staged, len, 0, expected, INITIAL;
      state := Verifying;
      return Ok;
    }

    method StepOnce()
      requires Valid()
      modifies this
      ensures Valid() && Abs() == Step(old(Abs()))
    {
      hide Crc;
      if state != Verifying {
        return;
      }
      var chunk := imageLen - verified;
      if chunk > CHUNK_BYTES {
        chunk := CHUNK_BYTES;
      }
      assert image[verified..verified + chunk] == image[..imageLen][verified..verified + chunk];
      runningCrc := Ccitt(image, verified, chunk, runningCrc);
      verified := verified + chunk;
      if verified >= imageLen {
        state := if runningCrc == expectedCrc then Ready else Failed;
      }
    }

    method ProgressPercent() returns (percent: nat)
      requires Valid()
      ensures percent == Progress(Abs())
    {
      percent := if imageLen == 0 then 0 else verified * 100 / imageLen;
    }
  }
}

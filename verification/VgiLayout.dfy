/** Where the lanes and rings of a VGI channel lie in shared memory, and the
    claim ids that the header's 32-bit sequence lane hands out. */
module VgiLayout {

  const HEADER_BYTES := 64
  const SLOT_CONTROL_BYTES := 64

  function AlignUp(n: nat, a: nat): nat
    requires a > 0
  {
    (n + (a - 1)) / a * a
  }

  function SlotStride(ringCap: nat): nat {
    AlignUp(SLOT_CONTROL_BYTES + 2 * ringCap, 64)
  }

  function ChannelBytes(nSlots: nat, ringCap: nat): nat {
    HEADER_BYTES + nSlots * SlotStride(ringCap)
  }

  function SlotBase(base: nat, ringCap: nat, slot: nat): nat {
    base + HEADER_BYTES + slot * SlotStride(ringCap)
  }

  // The three parts of a slot: its control lanes and the two data rings.
  datatype Part = Control | C2wData | W2cData

  datatype Region = Region(lo: nat, hi: nat)

  function PartRegion(base: nat, ringCap: nat, slot: nat, part: Part): Region {
    var sb := SlotBase(base, ringCap, slot);
    match part
    case Control => Region(sb, sb + SLOT_CONTROL_BYTES)
    case C2wData => Region(sb + SLOT_CONTROL_BYTES, sb + SLOT_CONTROL_BYTES + ringCap)
    case W2cData => Region(sb + SLOT_CONTROL_BYTES + ringCap, sb + SLOT_CONTROL_BYTES + 2 * ringCap)
  }

  predicate Disjoint(a: Region, b: Region) {
    a.hi <= b.lo || b.hi <= a.lo
  }

  lemma {:induction false} AlignUpBounds(n: nat, a: nat)
    requires a > 0
    ensures AlignUp(n, a) % a == 0
    ensures n <= AlignUp(n, a) < n + a
  {
    var q := (n + (a - 1)) / a;
    assert q * a % a == 0 by { ModOfMultiple(q, a); }
    assert n + (a - 1) == q * a + (n + (a - 1)) % a;
  }

  lemma {:induction false} ModOfMultiple(q: nat, a: nat)
    requires a > 0
    ensures q * a % a == 0
  {
    if q > 0 {
      ModOfMultiple(q - 1, a);
      assert q * a == (q - 1) * a + a;
      assert ((q - 1) * a + a) % a == (q - 1) * a % a by { AddPeriod((q - 1) * a, a); }
    }
  }

  lemma {:induction false} AddPeriod(x: nat, a: nat)
    requires a > 0
    ensures (x + a) % a == x % a
  {
    var q, r := x / a, x % a;
    assert x + a == (q + 1) * a + r;
    DivModUnique(x + a, a, q + 1, r);
  }

  lemma {:induction false} DivModUnique(x: int, a: int, q: int, r: int)
    requires a > 0 && x == q * a + r && 0 <= r < a
    ensures x / a == q && x % a == r
  {
    var q' := x / a;
    var d := q - q';
    assert x == q' * a + x % a;
    assert d * a == x % a - r by { assert q * a == q' * a + d * a; }
    if d >= 1 { MulAtLeast(d, a); } else if d <= -1 { MulAtLeast(-d, a); }
  }

  lemma {:induction false} MulAtLeast(d: int, a: int)
    requires d >= 1 && a >= 0
    ensures d * a >= a
  {
    if d > 1 {
      MulAtLeast(d - 1, a);
      assert d * a == (d - 1) * a + a;
    }
  }

  // Every part of every slot lies inside the channel and behind its header, and
  // two different (slot, part) pairs never share a byte.
  lemma {:induction false} PartsDisjoint(base: nat, nSlots: nat, ringCap: nat, s: nat, p: Part, s': nat, p': Part)
    requires s < nSlots && s' < nSlots
    requires s != s' || p != p'
    ensures var a := PartRegion(base, ringCap, s, p);
            && base + HEADER_BYTES <= a.lo <= a.hi <= base + ChannelBytes(nSlots, ringCap)
            && Disjoint(a, PartRegion(base, ringCap, s', p'))
  {
    SlotHoldsParts(ringCap);
    SlotsFollow(base, ringCap, s, nSlots);
    if s < s' { SlotsFollow(base, ringCap, s, s'); }
    if s' < s { SlotsFollow(base, ringCap, s', s); }
    hide SlotStride, SlotBase, ChannelBytes;
  }

  lemma {:induction false} SlotHoldsParts(ringCap: nat)
    ensures SLOT_CONTROL_BYTES + 2 * ringCap <= SlotStride(ringCap)
  {
    AlignUpBounds(SLOT_CONTROL_BYTES + 2 * ringCap, 64);
    hide AlignUp;
  }

  // A slot ends before the next one begins, and the last one ends with the channel.
  lemma {:induction false} SlotsFollow(base: nat, ringCap: nat, s: nat, s': nat)
    requires s < s'
    ensures base + HEADER_BYTES <= SlotBase(base, ringCap, s)
    ensures SlotBase(base, ringCap, s) + SlotStride(ringCap) <= SlotBase(base, ringCap, s')
    ensures SlotBase(base, ringCap, s') == base + ChannelBytes(s', ringCap)
  {
    hide SlotStride;
    SlotsApart(s, s', SlotStride(ringCap));
  }

  lemma {:induction false} SlotsApart(s: nat, s': nat, stride: nat)
    requires s < s'
    ensures s * stride + stride <= s' * stride
  {
    var d := s' - s;
    MulAtLeast(d, stride);
    assert s' * stride == s * stride + d * stride;
  }

  // A 64-aligned channel keeps every control block 64-aligned, so `slotBase >> 2`
  // is the exact index of its first 32-bit lane.
  lemma {:induction false} ControlAligned(base: nat, ringCap: nat, slot: nat)
    requires base % 64 == 0
    ensures SlotBase(base, ringCap, slot) % 64 == 0
    ensures SlotBase(base, ringCap, slot) / 4 * 4 == SlotBase(base, ringCap, slot)
  {
    var q := StrideUnits(ringCap);
    hide SlotStride;
    MulAssoc(slot, q);
    var units := slot * q;
    assert SlotBase(base, ringCap, slot) == base + 64 + units * 64;
    MultipleOf64(base, units);
  }

  lemma {:induction false} StrideUnits(ringCap: nat) returns (q: nat)
    ensures SlotStride(ringCap) == q * 64
  {
    AlignUpBounds(SLOT_CONTROL_BYTES + 2 * ringCap, 64);
    hide AlignUp;
    q := SlotStride(ringCap) / 64;
  }

  lemma {:induction false} MultipleOf64(base: nat, units: nat)
    requires base % 64 == 0
    ensures (base + 64 + units * 64) % 64 == 0 && (base + 64 + units * 64) / 4 * 4 == base + 64 + units * 64
  {
  }

  lemma {:induction false} MulAssoc(s: nat, q: nat)
    ensures s * (q * 64) == s * q * 64
  {
    if s > 0 {
      MulAssoc(s - 1, q);
      assert s * q == (s - 1) * q + q;
      assert s * (q * 64) == (s - 1) * (q * 64) + q * 64;
    }
  }

  // -------------------------------------------------------------------------
  // Claim ids

  const TWO32 := 0x1_0000_0000
  const TWO31 := 0x8000_0000

  // ECMA-262 ToInt32, which `| 0` and every Int32Array store apply.
  function ToInt32(x: int): (y: int)
    ensures -TWO31 <= y < TWO31
    ensures (x - y) % TWO32 == 0
    ensures -TWO31 <= x < TWO31 ==> y == x
  {
    var m := x % TWO32;
    if m >= TWO31 then m - TWO32 else m
  }

  // The claim id of the n-th open of a channel whose sequence lane started at 0.
  function ClaimId(n: nat): int
    requires n >= 1
  {
    var lane := ToInt32(n - 1);
    var id := ToInt32(lane + 1);
    if id == 0 then 1 else id
  }

  // The open that a claim id belongs to within one period of the lane.
  function Ordinal(id: int): int {
    if id > 0 then id else id + TWO32
  }

  // An id is never the free word, and two opens share one exactly when they are
  // a whole period apart or when one of them hit the wrapped lane value 0.
  lemma {:induction false} ClaimIdsCollide(n: nat, m: nat)
    requires 1 <= n && 1 <= m
    ensures ClaimId(n) != 0
    ensures ClaimId(n) == ClaimId(m) <==>
            (n % TWO32 == m % TWO32 || (n % TWO32 <= 1 && m % TWO32 <= 1))
  {
    ClaimIdValue(n);
    ClaimIdValue(m);
  }

  lemma {:induction false} ClaimIdValue(n: nat)
    requires n >= 1
    ensures var m := n % TWO32;
            ClaimId(n) == if m == 0 then 1 else if m >= TWO31 then m - TWO32 else m
  {
    var lane, m := ToInt32(n - 1), n % TWO32;
    Congruent(n, lane);
    assert (lane + 1) % TWO32 == m;
  }

  // The lane differs from the number of opens by whole periods.
  lemma {:induction false} Congruent(n: nat, lane: int)
    requires (n - 1 - lane) % TWO32 == 0
    ensures (lane + 1) % TWO32 == n % TWO32
  {
    var k := (n - 1 - lane) / TWO32;
    assert n == lane + 1 + k * TWO32;
  }

  // Over the first 2^32 - 1 opens the ids are distinct, and Ordinal inverts them.
  lemma {:induction false} OrdinalInverts(n: nat)
    requires 1 <= n < TWO32
    ensures ClaimId(n) != 0 && Ordinal(ClaimId(n)) == n
  {
    ClaimIdValue(n);
  }

  // The bound is tight: the next open repeats the very first id.
  lemma {:induction false} FirstCollision()
    ensures ClaimId(TWO32) == ClaimId(1)
  {
    ClaimIdsCollide(TWO32, 1);
  }
}

/** The NAS COUNT of section 4.4.3 of 3GPP TS 24.501 and the NAS security
    context that keeps one for each direction (src/rgnb/types.hpp). */
module NasSecurity {
  import opened Base

  /** The 24-bit NAS COUNT: a 16-bit overflow counter above an 8-bit sequence number. */
  datatype NasCount = NasCount(overflow: uint16, sqn: uint8)

  const COUNT_MODULUS: nat := 0x100_0000

  /** The 24-bit integer a NAS COUNT stands for. */
  function CountValue(c: NasCount): (v: nat)
    ensures v < COUNT_MODULUS
  {
    c.overflow * 0x100 + c.sqn
  }

  /** The overflow and the sequence number are the quotient and remainder of the
      value by 2^8. */
  lemma CountValueSplit(c: NasCount)
    ensures CountValue(c) / 0x100 == c.overflow && CountValue(c) % 0x100 == c.sqn
  {
    DivModUnique(CountValue(c), 0x100, c.overflow, c.sqn);
  }

  /** The successor of a 24-bit value, modulo 2^24. */
  function NextValue(v: nat): nat
    requires v < COUNT_MODULUS
  {
    if v + 1 == COUNT_MODULUS then 0 else v + 1
  }

  /** The NAS COUNT whose 24-bit value is v. */
  function CountOf(v: nat): (c: NasCount)
    requires v < COUNT_MODULUS
    ensures CountValue(c) == v
  {
    NasCount(v / 0x100, v % 0x100)
  }

  /** NasCount::toOctet4: the overflow shifted above the sequence number in a 32-bit word. */
  function ToOctet4(c: NasCount): (r: uint32)
    ensures r == CountValue(c)
    ensures r < COUNT_MODULUS
    ensures CountOf(r) == c
  {
    var value := c.overflow;
    var shifted := value * 0x100;
    CountValueSplit(c);
    shifted + c.sqn
  }

  /** Two counts are equal exactly when their 24-bit values are: the split is lossless. */
  lemma CountValueInjective(a: NasCount, b: NasCount)
    ensures CountValue(a) == CountValue(b) <==> a == b
  {
    if CountValue(a) == CountValue(b) {
      CountValueSplit(a);
      CountValueSplit(b);
      assert a.overflow == CountValue(a) / 0x100 == b.overflow;
      assert a.sqn == CountValue(a) % 0x100 == b.sqn;
    }
  }

  /** A UeKeys record; every key is an opaque byte string. */
  datatype UeKeys = UeKeys(abba: Octets, kAusf: Octets, kSeaf: Octets, kAmf: Octets,
                           kNasInt: Octets, kNasEnc: Octets)

  /** UeKeys::deepCopy: copies the five derived keys; abba stays at its default (empty). */
  function KeysDeepCopy(k: UeKeys): (r: UeKeys)
    ensures r.abba == []
    ensures r.kAusf == k.kAusf && r.kSeaf == k.kSeaf && r.kAmf == k.kAmf
    ensures r.kNasInt == k.kNasInt && r.kNasEnc == k.kNasEnc
    ensures r == k <==> k.abba == []
  {
    UeKeys([], k.kAusf, k.kSeaf, k.kAmf, k.kNasInt, k.kNasEnc)
  }

  /** Opaque codes for the NAS enumerations the context stores. */
  datatype SecurityContextType = SecurityContextType(code: int)
  datatype IntegrityAlgorithm = IntegrityAlgorithm(code: int)
  datatype CipheringAlgorithm = CipheringAlgorithm(code: int)

  datatype NasSecurityContext = NasSecurityContext(
    tsc: SecurityContextType,
    ngKsi: int,
    downlinkCount: NasCount,
    uplinkCount: NasCount,
    is3gppAccess: bool,
    keys: UeKeys,
    integrity: IntegrityAlgorithm,
    ciphering: CipheringAlgorithm,
    lastNasSequenceNums: seq<int>)

  /** NasSecurityContext::updateDownlinkCount: adopts a validated downlink count. */
  function UpdateDownlinkCount(ctx: NasSecurityContext, validated: NasCount): (r: NasSecurityContext)
    ensures r.downlinkCount.overflow == validated.overflow
    ensures r.downlinkCount.sqn == validated.sqn
    ensures r == ctx.(downlinkCount := validated)
    ensures r.uplinkCount == ctx.uplinkCount
  {
    ctx.(downlinkCount := NasCount(validated.overflow, validated.sqn))
  }

  /** NasSecurityContext::estimatedDownlinkCount: the full downlink count guessed
      from a received 8-bit sequence number. A sequence number below the stored
      one means the overflow counter has moved on by one (modulo 2^16). */
  function EstimatedDownlinkCount(ctx: NasSecurityContext, sequenceNumber: uint8): (r: NasCount)
    ensures r.sqn == sequenceNumber
    ensures ctx.downlinkCount.sqn > sequenceNumber ==>
              r.overflow == (ctx.downlinkCount.overflow + 1) % 0x1_0000
    ensures ctx.downlinkCount.sqn <= sequenceNumber ==> r.overflow == ctx.downlinkCount.overflow
  {
    var count := NasCount(ctx.downlinkCount.overflow, ctx.downlinkCount.sqn);
    var count' :=
      if count.sqn > sequenceNumber
      then count.(overflow := (count.overflow + 1) % 0x1_0000)
      else count;
    count'.(sqn := sequenceNumber)
  }

  /** The estimated count never lies behind the stored count, unless the whole
      24-bit space wraps: its value is the stored value advanced by less than 2^8,
      modulo 2^24. */
  lemma EstimateAdvancesLessThanOneCycle(ctx: NasSecurityContext, n: uint8)
    ensures var d := (CountValue(EstimatedDownlinkCount(ctx, n)) - CountValue(ctx.downlinkCount)) % COUNT_MODULUS;
            0 <= d < 0x100
  {
  }

  /** NasSecurityContext::countOnEncrypt: the uplink sequence number wraps in 8 bits,
      and the overflow counter moves (in 16 bits) exactly when it wraps to 0. */
  function CountOnEncrypt(ctx: NasSecurityContext): (r: NasSecurityContext)
    ensures CountValue(r.uplinkCount) == NextValue(CountValue(ctx.uplinkCount))
    ensures r.uplinkCount.overflow != ctx.uplinkCount.overflow <==> r.uplinkCount.sqn == 0
    ensures r == ctx.(uplinkCount := r.uplinkCount)
  {
    var c := ctx.uplinkCount;
    var sqn := (c.sqn + 1) % 0x100;
    var overflow :=
      if sqn == 0 then (c.overflow + 1) % 0x1_0000 else c.overflow;
    var next := NasCount(overflow, sqn);
    assert CountValue(next) == NextValue(CountValue(c)) by {
      if c.sqn < 0xFF {
        assert sqn == c.sqn + 1 && overflow == c.overflow;
        assert CountValue(c) + 1 < COUNT_MODULUS;
      } else if c.overflow < 0xFFFF {
        assert sqn == 0 && overflow == c.overflow + 1;
      } else {
        assert sqn == 0 && overflow == 0;
        assert CountValue(c) + 1 == COUNT_MODULUS;
      }
    }
    ctx.(uplinkCount := next)
  }

  /** NasSecurityContext::rollbackCountOnEncrypt: steps the uplink count back by one,
      wrapping 0/0 to 0xFFFF/0xFF. */
  function RollbackCountOnEncrypt(ctx: NasSecurityContext): (r: NasSecurityContext)
    ensures NextValue(CountValue(r.uplinkCount)) == CountValue(ctx.uplinkCount)
    ensures r == ctx.(uplinkCount := r.uplinkCount)
  {
    var c := ctx.uplinkCount;
    var c' :=
      if c.sqn == 0 then
        NasCount(if c.overflow == 0 then 0xFFFF else c.overflow - 1, 0xFF)
      else
        NasCount(c.overflow, (c.sqn - 1) % 0x100);
    ctx.(uplinkCount := c')
  }

  /** Rollback undoes an encryption count step. */
  lemma RollbackAfterCount(ctx: NasSecurityContext)
    ensures RollbackCountOnEncrypt(CountOnEncrypt(ctx)) == ctx
  {
    var a := RollbackCountOnEncrypt(CountOnEncrypt(ctx)).uplinkCount;
    assert NextValue(CountValue(a)) == NextValue(CountValue(ctx.uplinkCount));
    CountValueInjective(a, ctx.uplinkCount);
  }

  /** An encryption count step undoes a rollback. */
  lemma CountAfterRollback(ctx: NasSecurityContext)
    ensures CountOnEncrypt(RollbackCountOnEncrypt(ctx)) == ctx
  {
    var a := CountOnEncrypt(RollbackCountOnEncrypt(ctx)).uplinkCount;
    CountValueInjective(a, ctx.uplinkCount);
  }

  /** NasSecurityContext::deepCopy: every field is kept; only the keys' abba is reset. */
  function ContextDeepCopy(ctx: NasSecurityContext): (r: NasSecurityContext)
    ensures r.keys == KeysDeepCopy(ctx.keys)
    ensures r == ctx.(keys := r.keys)
    ensures r == ctx <==> ctx.keys.abba == []
  {
    NasSecurityContext(ctx.tsc, ctx.ngKsi, ctx.downlinkCount, ctx.uplinkCount, ctx.is3gppAccess,
                       KeysDeepCopy(ctx.keys), ctx.integrity, ctx.ciphering, ctx.lastNasSequenceNums)
  }

  /** Copying a copy changes nothing more. */
  lemma DeepCopyIdempotent(ctx: NasSecurityContext)
    ensures ContextDeepCopy(ContextDeepCopy(ctx)) == ContextDeepCopy(ctx)
  {
  }
}

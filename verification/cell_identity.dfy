/** The NR Cell Identity split of RGnbGnbConfig (src/rgnb/types.hpp): the 36-bit NCI
    holds the gNB ID in its leftmost gnbIdLength bits and the cell ID in the rest,
    as section 8.2 of 3GPP TS 38.300 lays out. */
module CellIdentity {
  import opened Base

  const NCI_BITS: nat := 36

  /** The gNB ID length a validated configuration carries (22..32 bits). */
  predicate ValidIdLength(gnbIdLength: int)
  {
    22 <= gnbIdLength <= 32
  }

  /** RGnbGnbConfig::getGnbId: the low 36 bits of the NCI shifted right past the cell ID. */
  function GnbId(nci: int, gnbIdLength: int): (r: uint32)
    requires ValidIdLength(gnbIdLength)
    ensures r < Pow2(gnbIdLength)
  {
    var cellBits := NCI_BITS - gnbIdLength;
    var low := nci % Pow2(NCI_BITS);
    Pow2Add(gnbIdLength, cellBits);
    DivBelow(low, Pow2(gnbIdLength), Pow2(cellBits));
    Pow2Monotone(gnbIdLength, 32);
    Pow2Values();
    low / Pow2(cellBits)
  }

  /** RGnbGnbConfig::getCellId: the NCI masked with (1 << (36 - gnbIdLength)) - 1. */
  function CellId(nci: int, gnbIdLength: int): (r: nat)
    requires ValidIdLength(gnbIdLength)
    ensures r < Pow2(NCI_BITS - gnbIdLength)
  {
    nci % Pow2(NCI_BITS - gnbIdLength)
  }

  /** Masking to 36 bits before keeping the low cell bits makes no difference. */
  lemma LowBitsOfLowBits(x: int, k: nat, n: nat)
    requires k <= n
    ensures (x % Pow2(n)) % Pow2(k) == x % Pow2(k)
  {
    Pow2Add(k, n - k);
    ModOfMod(x, Pow2(k), Pow2(n - k));
  }

  /** The split is lossless: gNB ID above cell ID rebuilds the NCI's low 36 bits,
      and the two parts are determined by it. */
  lemma {:induction false} SplitIsLossless(nci: int, gnbIdLength: int)
    requires ValidIdLength(gnbIdLength)
    ensures GnbId(nci, gnbIdLength) * Pow2(NCI_BITS - gnbIdLength) + CellId(nci, gnbIdLength)
            == nci % Pow2(NCI_BITS)
  {
    var d := Pow2(NCI_BITS - gnbIdLength);
    var low := nci % Pow2(NCI_BITS);
    LowBitsOfLowBits(nci, NCI_BITS - gnbIdLength, NCI_BITS);
    assert low % d == CellId(nci, gnbIdLength);
    assert (low / d) * d + low % d == low;
  }

  /** Any gNB ID and cell ID within their widths are the parts of exactly one 36-bit NCI. */
  lemma {:induction false} JoinThenSplit(gnbId: nat, cellId: nat, gnbIdLength: int)
    requires ValidIdLength(gnbIdLength)
    requires gnbId < Pow2(gnbIdLength) && cellId < Pow2(NCI_BITS - gnbIdLength)
    ensures var nci := gnbId * Pow2(NCI_BITS - gnbIdLength) + cellId;
            nci < Pow2(NCI_BITS) && GnbId(nci, gnbIdLength) == gnbId && CellId(nci, gnbIdLength) == cellId
  {
    var d := Pow2(NCI_BITS - gnbIdLength);
    var full := Pow2(NCI_BITS);
    Pow2Add(gnbIdLength, NCI_BITS - gnbIdLength);
    assert full == Pow2(gnbIdLength) * d;
    var nci := gnbId * d + cellId;
    MulNonneg(gnbId, d);
    assert nci < full by {
      MulMonotone(gnbId + 1, Pow2(gnbIdLength), d);
      assert (gnbId + 1) * d == gnbId * d + d;
    }
    DivModUnique(nci, full, 0, nci);
    assert nci % full == nci;
    DivModUnique(nci, d, gnbId, cellId);
    assert GnbId(nci, gnbIdLength) == (nci % full) / d;
  }
}

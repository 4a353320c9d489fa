/** The paging decode of the device RRC task (UeRrcTask::receivePaging in
    src/rgnb/ueRrc/handler.cpp): of the records of an RRC Paging message, those that
    page by ng-5G-S-TMSI are read as a 48-bit string of AMF Set ID (10 bits), AMF
    Pointer (6 bits) and 5G-TMSI (32 bits), the layout of section 2.10.1 of
    3GPP TS 23.003. */
module Paging {
  import opened Messages

  const TWO_32: nat := 0x1_0000_0000
  const TWO_38: nat := 0x40_0000_0000
  const TWO_48: nat := 0x1_0000_0000_0000

  /** The value of the 48-bit ng-5G-S-TMSI bit string, first bit most significant. */
  type uint48 = x: nat | x < 0x1_0000_0000_0000

  /** PagingUE-Identity: the choice between the 5G-S-TMSI and the full I-RNTI. */
  datatype PagingUeIdentity = Ng5gSTmsi(sTmsi: uint48) | FullIRnti(iRnti: nat)

  datatype PagingRecord = PagingRecord(ueIdentity: PagingUeIdentity)

  /** A GUTI mobile identity whose three fields fit the 10/6/32-bit layout. */
  predicate FitsSTmsi(g: GutiMobileIdentity)
  {
    g.amfSetId < 1024 && g.amfPointer < 64 && g.tmsi < TWO_32
  }

  /** The 48-bit string a 5G-S-TMSI is sent as. */
  function EncodeSTmsi(g: GutiMobileIdentity): nat
  {
    g.amfSetId * TWO_38 + g.amfPointer * TWO_32 + g.tmsi
  }

  /** readBits(10), readBits(6), then readBitsLong(32) masked to 32 bits. */
  function DecodeSTmsi(v: uint48): (g: GutiMobileIdentity)
    ensures FitsSTmsi(g)
    ensures EncodeSTmsi(g) == v
  {
    var amfSetId := v / TWO_38;
    var amfPointer := (v / TWO_32) % 64;
    var tmsi := (v % TWO_32) % TWO_32;
    assert v % TWO_38 == amfPointer * TWO_32 + tmsi;
    GutiMobileIdentity(amfSetId, amfPointer, tmsi)
  }

  /** Any identity that fits the layout survives being sent and read back. */
  lemma EncodeThenDecode(g: GutiMobileIdentity)
    requires FitsSTmsi(g)
    ensures EncodeSTmsi(g) < TWO_48
    ensures DecodeSTmsi(EncodeSTmsi(g)) == g
  {
    var v := EncodeSTmsi(g);
    var low := g.amfPointer * TWO_32 + g.tmsi;
    assert low < TWO_38;
    assert v == g.amfSetId * TWO_38 + low;
    assert v < TWO_48;
    assert v / TWO_38 == g.amfSetId;
    assert v / TWO_32 == g.amfSetId * 64 + g.amfPointer;
  }

  /** Whether a record pages by 5G-S-TMSI. */
  predicate PagesByTmsi(rec: PagingRecord)
  {
    rec.ueIdentity.Ng5gSTmsi?
  }

  /** The identity list receivePaging builds, in record order. */
  function PagingTmsiList(records: seq<PagingRecord>): (r: seq<GutiMobileIdentity>)
    ensures |r| <= |records|
    ensures forall i :: 0 <= i < |r| ==> FitsSTmsi(r[i])
  {
    if |records| == 0 then []
    else
      var head := if PagesByTmsi(records[0]) then [DecodeSTmsi(records[0].ueIdentity.sTmsi)] else [];
      head + PagingTmsiList(records[1..])
  }

  /** Records contribute independently and in order: the list for joined record
      lists is the join of the lists. */
  lemma {:induction false} PagingListAppend(a: seq<PagingRecord>, b: seq<PagingRecord>)
    ensures PagingTmsiList(a + b) == PagingTmsiList(a) + PagingTmsiList(b)
  {
    if |a| == 0 {
      assert a + b == b;
    } else {
      assert (a + b)[0] == a[0] && (a + b)[1..] == a[1..] + b;
      PagingListAppend(a[1..], b);
    }
  }

  /** An identity is in the list exactly when some 5G-S-TMSI record decodes to it. */
  lemma {:induction false} PagingListMembers(records: seq<PagingRecord>, g: GutiMobileIdentity)
    ensures g in PagingTmsiList(records) <==>
            exists i :: 0 <= i < |records| && PagesByTmsi(records[i]) &&
                        DecodeSTmsi(records[i].ueIdentity.sTmsi) == g
  {
    if |records| > 0 {
      PagingListMembers(records[1..], g);
      var head := if PagesByTmsi(records[0]) then [DecodeSTmsi(records[0].ueIdentity.sTmsi)] else [];
      assert PagingTmsiList(records) == head + PagingTmsiList(records[1..]);
      if exists i :: 0 <= i < |records| && PagesByTmsi(records[i]) &&
                     DecodeSTmsi(records[i].ueIdentity.sTmsi) == g {
        var i :| 0 <= i < |records| && PagesByTmsi(records[i]) &&
                 DecodeSTmsi(records[i].ueIdentity.sTmsi) == g;
        if i > 0 {
          assert records[1..][i - 1] == records[i];
        }
      }
      if g in PagingTmsiList(records[1..]) {
        var j :| 0 <= j < |records[1..]| && PagesByTmsi(records[1..][j]) &&
                 DecodeSTmsi(records[1..][j].ueIdentity.sTmsi) == g;
        assert records[j + 1] == records[1..][j];
      }
    }
  }

  /** A record list with no 5G-S-TMSI record yields an empty list. */
  lemma {:induction false} NoTmsiNoList(records: seq<PagingRecord>)
    requires forall i :: 0 <= i < |records| ==> !PagesByTmsi(records[i])
    ensures PagingTmsiList(records) == []
  {
    if |records| > 0 {
      NoTmsiNoList(records[1..]);
    }
  }

  /** The PAGING notification receivePaging builds for NAS. */
  function BuildPagingNotification(records: seq<PagingRecord>): (m: NmUeRrcToNas)
    ensures m.Paging? && m.pagingTmsi == PagingTmsiList(records)
  {
    NmUeRrcToNas.Paging(PagingTmsiList(records))
  }
}

/** Which corruptions of a stored configuration record its checks catch, and which they miss. */
module ConfigDamage {
  import opened Words
  import opened ConfigRecord
  import C = Crc32
  import G = Gf2
  import T = TwoBits
  import V = V1Checksum

  // ---- Version 2 ----

  /** The CRC field fits exactly when the register over all 28 bytes, field included, is the residue. */
  lemma CrcFitsIffResidue(b: seq<Byte>)
    requires |b| == CONFIG_SIZE
    ensures Decode(b).crc32 == C.Crc(Body(Decode(b))) <==> C.Register(C.ONES, b) == C.RESIDUE
  {
    var c := Decode(b);
    EncodeDecode(b);
    C.CheckValueIffResidue(Body(c), c.crc32);
  }

  /** A valid record changed only within 32 consecutive bits, CRC field included, is always rejected. */
  lemma BurstRejected(a: seq<Byte>, b: seq<Byte>, i: nat)
    requires |a| == |b| == CONFIG_SIZE && IsValid(Decode(a)) && a != b
    requires G.DifferInWindow(C.AllBits(a), C.AllBits(b), i)
    ensures !IsValid(Decode(b))
  {
    CrcFitsIffResidue(a);
    CrcFitsIffResidue(b);
    C.RegisterDetectsBurst(C.ONES, a, b, i);
  }

  /** A valid record with one or two bits flipped, anywhere in its 28 bytes, is always rejected. */
  lemma TwoBitsRejected(a: seq<Byte>, b: seq<Byte>, i: nat, j: nat)
    requires |a| == |b| == CONFIG_SIZE && IsValid(Decode(a)) && a != b
    requires i < j < 8 * CONFIG_SIZE && T.DifferOnlyAt(C.AllBits(a), C.AllBits(b), i, j)
    ensures !IsValid(Decode(b))
  {
    CrcFitsIffResidue(a);
    CrcFitsIffResidue(b);
    C.RegisterDetectsTwoBits(C.ONES, a, b, i, j);
  }

  lemma {:induction false} SameBytesSameBits(a: seq<Byte>, b: seq<Byte>, k: nat)
    requires |a| == |b| && k < |a| && a[k] == b[k]
    ensures forall j :: 8 * k <= j < 8 * k + 8 ==> C.AllBits(a)[j] == C.AllBits(b)[j]
  {
    if k > 0 {
      SameBytesSameBits(a[1..], b[1..], k - 1);
      forall j | 8 * k <= j < 8 * k + 8 ensures C.AllBits(a)[j] == C.AllBits(b)[j] {
        assert C.AllBits(a)[j] == C.AllBits(a[1..])[j - 8] && C.AllBits(b)[j] == C.AllBits(b[1..])[j - 8];
      }
    }
  }

  /** In particular when only bytes among some four consecutive ones are changed. */
  lemma FourByteChangeRejected(a: seq<Byte>, b: seq<Byte>, k: nat)
    requires |a| == |b| == CONFIG_SIZE && IsValid(Decode(a)) && a != b
    requires forall j :: 0 <= j < CONFIG_SIZE && !(k <= j < k + 4) ==> a[j] == b[j]
    ensures !IsValid(Decode(b))
  {
    forall j | 0 <= j < 8 * CONFIG_SIZE && !(8 * k <= j < 8 * k + 32) ensures C.AllBits(a)[j] == C.AllBits(b)[j] {
      SameBytesSameBits(a, b, j / 8);
    }
    BurstRejected(a, b, 8 * k);
  }

  // ---- Version 1 ----

  lemma PartsV1(b: seq<Byte>)
    requires |b| == CONFIG_V1_SIZE
    ensures b[..20] == BodyV1(DecodeV1(b)) && b[20..24] == LittleEndian(DecodeV1(b).checksum, 4)
  {
    EncodeDecodeV1(b);
    EncodeV1Parts(DecodeV1(b));
  }

  /** A valid version 1 record with one byte changed, anywhere in it, is never taken for a valid one. */
  lemma OneByteChangeRejectedV1(a: seq<Byte>, k: nat, x: Byte)
    requires |a| == CONFIG_V1_SIZE && IsValidV1(DecodeV1(a)) && k < CONFIG_V1_SIZE && a[k] != x
    ensures !IsValidV1(DecodeV1(a[k := x]))
  {
    var b := a[k := x];
    PartsV1(a);
    PartsV1(b);
    WordAt(a, 20, DecodeV1(b).checksum);
    if k < 20 {
      assert b[..20] == a[..20][k := x] && b[20..24] == a[20..24];
      V.OneByteDetected(0, a[..20], k, x);
    } else {
      assert b[..20] == a[..20] && b[20..24][k - 20] != a[20..24][k - 20];
    }
  }

  /** A record changed between its version and byte `j`, checksum left alone, is still taken for a valid
      one if and only if the sums of old and new up to and including byte `j` are equal. */
  lemma ChangedRecordValidIffV1(a: seq<Byte>, b: seq<Byte>, j: nat)
    requires |a| == |b| == CONFIG_V1_SIZE && IsValidV1(DecodeV1(a)) && 6 <= j < 20
    requires a[..6] == b[..6] && a[j + 1..] == b[j + 1..]
    ensures IsValidV1(DecodeV1(b)) <==> V.SumFrom(0, a[..j + 1]) == V.SumFrom(0, b[..j + 1])
  {
    PartsV1(a);
    PartsV1(b);
    assert forall k :: 0 <= k < 6 ==> a[k] == a[..6][k] == b[..6][k] == b[k];
    assert forall k :: j < k < CONFIG_V1_SIZE ==> a[k] == a[j + 1..][k - j - 1] == b[j + 1..][k - j - 1] == b[k];
    assert a[20..24] == b[20..24] && a[..20][j + 1..] == b[..20][j + 1..];
    assert a[..20][..j + 1] == a[..j + 1] && b[..20][..j + 1] == b[..j + 1];
    V.UnnoticedIffSumsMeet(0, a[..20], b[..20], j);
  }

  lemma TwoFieldsAreTwoBytes(a: ConfigV1, t: Byte, v: Byte)
    ensures EncodeV1(a.(tempThreshold := t, lowVoltageDecivolts := v)) == EncodeV1(a)[6 := t][7 := v]
  {
  }

  lemma SumOfThreeParts(front: seq<Byte>, middle: seq<Byte>, back: seq<Byte>)
    ensures V.Checksum(front + middle + back) == V.SumFrom(V.SumFrom(V.Checksum(front), middle), back)
  {
    V.SumConcat(0, front + middle, back);
    V.SumConcat(0, front, middle);
  }

  /** Two changed bytes can go unnoticed: whatever the periods and the boot count, there are two valid
      version 1 records that differ in exactly the threshold byte and the voltage byte. */
  lemma TwoBytesMayCancelV1(diagnosticPeriodMs: Word, framePeriodMs: Word, bootCount: Word)
      returns (a: ConfigV1, b: ConfigV1)
    ensures IsValidV1(a) && IsValidV1(b) && a.tempThreshold != b.tempThreshold
            && a.lowVoltageDecivolts != b.lowVoltageDecivolts
    ensures b == a.(tempThreshold := b.tempThreshold, lowVoltageDecivolts := b.lowVoltageDecivolts)
    ensures a.diagnosticPeriodMs == diagnosticPeriodMs && a.framePeriodMs == framePeriodMs && a.bootCount == bootCount
    ensures EncodeV1(b) == EncodeV1(a)[6 := b.tempThreshold][7 := b.lowVoltageDecivolts]
  {
    var front := LittleEndian(CONFIG_V1_MAGIC, 4) + LittleEndian(1, 2);
    var back := LittleEndian(diagnosticPeriodMs, 4) + LittleEndian(framePeriodMs, 4) + LittleEndian(bootCount, 4);
    var x := V.TwoBytesCancel(V.Checksum(front));
    var sum := V.Checksum(front + [x, 0] + back);
    a := ConfigV1(CONFIG_V1_MAGIC, 1, x, 0, diagnosticPeriodMs, framePeriodMs, bootCount, sum);
    b := a.(tempThreshold := V.Neighbour(x), lowVoltageDecivolts := 33);
    assert BodyV1(a) == front + [x, 0] + back && BodyV1(b) == front + [V.Neighbour(x), 33] + back;
    SumOfThreeParts(front, [x, 0], back);
    SumOfThreeParts(front, [V.Neighbour(x), 33], back);
    TwoFieldsAreTwoBytes(a, V.Neighbour(x), 33);
  }
}

/** The adapter between process data and the F-KR virtual servo: outputs are checked
    before the first one is written, inputs are encoded from the object dictionary. */
module FKrAdapter {
  import opened Codec
  import opened ServoSpec
  import opened Words
  import opened Wrappers
  import opened Reals
  import R = AxisRuntime
  import ServoObject

  /** One object of the fixed process data mapping. */
  datatype Mapped = Mapped(index: nat, kind: IntType)

  const PADDING := Mapped(0, UINT8)

  const RX_MAPPING: seq<Mapped> := [
    Mapped(0x6040, UINT16), Mapped(0x6060, INT8), Mapped(0x607A, INT32), Mapped(0x6081, UINT32),
    Mapped(0x60FF, INT32), Mapped(0x6071, INT16), Mapped(0x60B1, INT32), Mapped(0x60B2, INT16), PADDING]

  /** The offset of the i-th mapped object. */
  function Offset(i: nat): nat
    requires i <= |RX_MAPPING|
  {
    if i == 0 then 0 else Offset(i - 1) + RX_MAPPING[i - 1].kind.size
  }

  lemma Offsets()
    ensures Offset(1) == 2 && Offset(2) == 3 && Offset(3) == 7 && Offset(4) == 11 && Offset(5) == 15
    ensures Offset(6) == 17 && Offset(7) == 21 && Offset(8) == 23 && Offset(9) == R.RX_SIZE
  {
    assert Offset(1) == 2;
    assert Offset(2) == 3;
    assert Offset(3) == 7;
    assert Offset(4) == 11;
    assert Offset(5) == 15;
    assert Offset(6) == 17;
    assert Offset(7) == 21;
    assert Offset(8) == 23;
  }

  /** The octets of the i-th mapped object. */
  function Slice(payload: Octets, i: nat): Octets
    requires |payload| == R.RX_SIZE && i < |RX_MAPPING|
  {
    OffsetInside(i);
    payload[Offset(i)..Offset(i + 1)]
  }

  lemma OffsetInside(i: nat)
    requires i < |RX_MAPPING|
    ensures Offset(i) <= Offset(i + 1) <= R.RX_SIZE
  {
    Offsets();
  }

  /** Mode 0 is a valid idle input. */
  predicate Supported(mode: int) {
    mode in {0, 1, 3, 6, 8, -3}
  }

  function Value(kind: IntType, raw: Octets): int {
    TwosComplement(kind, FromLittleEndian(raw))
  }

  /** The process data record at its fixed positions. */
  function DecodeRx(payload: Octets): RxPdo
    requires |payload| == R.RX_SIZE
  {
    RxPdo(Word(payload), Value(INT8, payload[2..3]), Value(INT32, payload[3..7]) as real,
          Value(UINT32, payload[7..11]) as real, Value(INT32, payload[11..15]) as real)
  }

  /** Writing one object of the mapping; the servo reads five of them. */
  function WriteObject(rx: RxPdo, index: nat, raw: Octets): RxPdo {
    if index == 0x6040 && |raw| >= 2 then rx.(controlword := Word(raw))
    else if index == 0x6060 then rx.(mode := Value(INT8, raw))
    else if index == 0x607A then rx.(target := Value(INT32, raw) as real)
    else if index == 0x6081 then rx.(profileVelocity := Value(UINT32, raw) as real)
    else if index == 0x60FF then rx.(targetVelocity := Value(INT32, raw) as real)
    else rx
  }

  function WriteMapped(rx: RxPdo, payload: Octets, n: nat): RxPdo
    requires |payload| == R.RX_SIZE && n <= |RX_MAPPING|
  {
    if n == 0 then rx
    else WriteObject(WriteMapped(rx, payload, n - 1), RX_MAPPING[n - 1].index, Slice(payload, n - 1))
  }

  /** Writing the mapped objects one after another gives the record at fixed positions,
      whatever stood there before. */
  lemma MappingIsPositional(rx: RxPdo, payload: Octets)
    requires |payload| == R.RX_SIZE
    ensures WriteMapped(rx, payload, |RX_MAPPING|) == DecodeRx(payload)
  {
    hide Value, Word;
    Offsets();
    var w1 := WriteMapped(rx, payload, 1);
    FirstWord(payload);
    assert WriteMapped(rx, payload, 0) == rx && Slice(payload, 0) == payload[0..2];
    assert w1 == rx.(controlword := Word(payload));
    var w2 := WriteMapped(rx, payload, 2);
    assert w2 == w1.(mode := Value(INT8, payload[2..3]));
    var w3 := WriteMapped(rx, payload, 3);
    assert w3 == w2.(target := Value(INT32, payload[3..7]) as real);
    var w4 := WriteMapped(rx, payload, 4);
    assert w4 == w3.(profileVelocity := Value(UINT32, payload[7..11]) as real);
    var w5 := WriteMapped(rx, payload, 5);
    assert w5 == w4.(targetVelocity := Value(INT32, payload[11..15]) as real);
    assert WriteMapped(rx, payload, 6) == w5;
    assert WriteMapped(rx, payload, 7) == w5;
    assert WriteMapped(rx, payload, 8) == w5;
  }

  lemma FirstWord(payload: Octets)
    requires |payload| >= 2
    ensures Word(payload[0..2]) == Word(payload)
  {
  }

  /** The octets a master sends for a record: each object in its type, then what the servo
      does not read. */
  function RecordOctets(cw: bv16, mode: int, target: int, profileVelocity: int, targetVelocity: int, rest: Octets): Octets
    requires InRange(INT8, mode) && InRange(INT32, target) && InRange(UINT32, profileVelocity)
    requires InRange(INT32, targetVelocity)
  {
    WordOctets(cw) + Encode(INT8, mode).value + Encode(INT32, target).value + Encode(UINT32, profileVelocity).value
    + Encode(INT32, targetVelocity).value + rest
  }

  lemma ValueOfEncoded(kind: IntType, value: int)
    requires kind.size > 0 && InRange(kind, value)
    ensures Encode(kind, value).Some? && |Encode(kind, value).value| == kind.size
    ensures Value(kind, Encode(kind, value).value) == value
  {
    hide Encode, FromLittleEndian, TwosComplement, InRange;
    DecodeEncoded(kind, value, []);
    var data := Encode(kind, value).value;
    assert data + [] == data && data[..kind.size] == data;
  }

  /** The servo reads exactly the record the master encoded. */
  lemma RecordIsRead(cw: bv16, mode: int, target: int, profileVelocity: int, targetVelocity: int, rest: Octets)
    requires InRange(INT8, mode) && InRange(INT32, target) && InRange(UINT32, profileVelocity)
    requires InRange(INT32, targetVelocity)
    requires |rest| == 9
    ensures var data := RecordOctets(cw, mode, target, profileVelocity, targetVelocity, rest);
            && |data| == R.RX_SIZE
            && DecodeRx(data) == RxPdo(cw, mode, target as real, profileVelocity as real, targetVelocity as real)
  {
    hide Encode, Value, Word, WordOctets, InRange;
    var data := RecordOctets(cw, mode, target, profileVelocity, targetVelocity, rest);
    ValueOfEncoded(INT8, mode);
    ValueOfEncoded(INT32, target);
    ValueOfEncoded(UINT32, profileVelocity);
    ValueOfEncoded(INT32, targetVelocity);
    var m, t, p, v := Encode(INT8, mode).value, Encode(INT32, target).value, Encode(UINT32, profileVelocity).value,
                      Encode(INT32, targetVelocity).value;
    WordRoundTrip(cw, data[2..]);
    assert data == WordOctets(cw) + data[2..];
    assert data[2..3] == m && data[3..7] == t && data[7..11] == p && data[11..15] == v;
  }

  // ---- The adapter on values ----

  function Apply(s: Servo, payload: Octets): R.Outcome<Servo> {
    if |payload| != R.RX_SIZE then R.Crashed(s)
    else if !Supported(Value(INT8, payload[2..3])) then R.Rejected(s)
    else R.Done(WriteRx(s, DecodeRx(payload)))
  }

  /** Where an update divides by the elapsed time, a step without elapsed time raises. What
      the interrupted update leaves in the servo is not modelled: a crash asks for a restart,
      after which nothing reads the servo again. */
  function Advance(s: Servo, dt: real): R.Outcome<Servo> {
    if dt > 0.0 || !UpdateTimed(s) then R.Done(ModelUpdate(s, dt)) else R.Crashed(s)
  }

  function EncodeTx(tx: TxPdo): (r: Option<Octets>)
    ensures r.Some? ==> |r.value| == R.TX_SIZE
  {
    var mode, position, velocity :=
      Encode(INT8, tx.modeDisplay), Encode(INT32, Trunc(tx.position)), Encode(INT32, Trunc(tx.velocity));
    if mode.None? || position.None? || velocity.None? then None
    else Some(WordOctets(tx.statusword) + mode.value + position.value + velocity.value + [0, 0, 0])
  }

  function ReadInputs(s: Servo): R.Reading<Servo> {
    match EncodeTx(s.od.tx)
    case None => R.ReadCrashed(s)
    case Some(data) => R.Image(s, data)
  }

  /** The process image tells the statusword and the truncated position and velocity;
      there is none exactly when a value does not fit its object. */
  lemma ImageTellsTx(tx: TxPdo)
    ensures EncodeTx(tx).Some? <==>
              InRange(INT8, tx.modeDisplay) && InRange(INT32, Trunc(tx.position)) && InRange(INT32, Trunc(tx.velocity))
    ensures EncodeTx(tx).Some? ==>
              var data := EncodeTx(tx).value;
              && Word(data) == tx.statusword
              && Decode(INT8, data[2..]) == Some(tx.modeDisplay)
              && Decode(INT32, data[3..]) == Some(Trunc(tx.position))
              && Decode(INT32, data[7..]) == Some(Trunc(tx.velocity))
  {
    hide Encode, Decode, Word, WordOctets, Trunc, InRange, FromLittleEndian;
    var zeros: Octets := [0, 0, 0];
    DecodeEncoded(INT8, tx.modeDisplay, []);
    DecodeEncoded(INT32, Trunc(tx.position), []);
    DecodeEncoded(INT32, Trunc(tx.velocity), zeros);
    if EncodeTx(tx).Some? {
      var data := EncodeTx(tx).value;
      var m, p, v := Encode(INT8, tx.modeDisplay).value, Encode(INT32, Trunc(tx.position)).value,
                     Encode(INT32, Trunc(tx.velocity)).value;
      WordRoundTrip(tx.statusword, m + (p + (v + zeros)));
      assert data == WordOctets(tx.statusword) + (m + (p + (v + zeros)));
      DecodeEncoded(INT8, tx.modeDisplay, p + (v + zeros));
      assert data[2..] == m + (p + (v + zeros));
      DecodeEncoded(INT32, Trunc(tx.position), v + zeros);
      assert data[3..] == p + (v + zeros);
      assert data[7..] == v + zeros;
    }
  }

  /** The objects of the process image in order, torque and padding included. */
  function TxField(tx: TxPdo, i: nat): Option<Octets> {
    match i
    case 0 => Some(WordOctets(tx.statusword))
    case 1 => Encode(INT8, tx.modeDisplay)
    case 2 => Encode(INT32, Trunc(tx.position))
    case 3 => Encode(INT32, Trunc(tx.velocity))
    case 4 => Some([0, 0])
    case _ => Some([0])
  }

  const TX_FIELDS: nat := 6

  /** The image built object by object; it fails with the first that does not encode. */
  function TxPrefix(tx: TxPdo, n: nat): Option<Octets> {
    if n == 0 then Some([])
    else
      var before, field := TxPrefix(tx, n - 1), TxField(tx, n - 1);
      if before.None? || field.None? then None else Some(before.value + field.value)
  }

  lemma PrefixIsImage(tx: TxPdo)
    ensures TxPrefix(tx, TX_FIELDS) == EncodeTx(tx)
  {
    hide Encode, Trunc, WordOctets;
    var a, b, c, d := TxPrefix(tx, 1), TxPrefix(tx, 2), TxPrefix(tx, 3), TxPrefix(tx, 4);
    assert TxPrefix(tx, 0) == Some([]) && [] + WordOctets(tx.statusword) == WordOctets(tx.statusword);
    assert a == Some(WordOctets(tx.statusword));
    if EncodeTx(tx).Some? {
      assert b.Some? && c.Some? && d.Some?;
      assert TxPrefix(tx, 5) == Some(d.value + [0, 0]);
      assert d.value + [0, 0] + [0] == d.value + [0, 0, 0];
    } else if b.None? {
      PrefixFails(tx, 2, TX_FIELDS);
    } else if c.None? {
      PrefixFails(tx, 3, TX_FIELDS);
    } else {
      PrefixFails(tx, 4, TX_FIELDS);
    }
  }

  lemma {:induction false} PrefixFails(tx: TxPdo, n: nat, m: nat)
    requires n <= m && TxPrefix(tx, n).None?
    ensures TxPrefix(tx, m).None?
  {
    hide TxField;
    if n < m {
      PrefixFails(tx, n, m - 1);
    }
  }

  // ---- The adapter as the object that owns the servo ----

  class FKrCmmtAdapter {
    const model: ServoObject.VirtualCiA402Servo

    constructor (preset: Config)
      ensures fresh(model) && fresh(model.sm) && model.View() == Initial(preset)
    {
      model := new ServoObject.VirtualCiA402Servo(preset, 0.01);
    }

    /** Validate the mode before the first object is written. */
    method ApplyOutputs(payload: Octets) returns (outcome: R.Outcome<()>)
      modifies model
      ensures model.cycleTime == old(model.cycleTime)
      ensures match Apply(old(model.View()), payload)
              case Crashed(s) => outcome.Crashed? && model.View() == s
              case Rejected(s) => outcome.Rejected? && model.View() == s
              case Done(s) => outcome.Done? && model.View() == s
    {
      if |payload| != R.RX_SIZE {
        return R.Crashed(());
      }
      Offsets();
      var offset := 0;
      for i := 0 to |RX_MAPPING|
        invariant offset == Offset(i)
        invariant i >= 2 ==> Supported(Value(INT8, payload[2..3]))
        invariant model.View() == old(model.View()) && model.cycleTime == old(model.cycleTime)
      {
        var entry := RX_MAPPING[i];
        OffsetInside(i);
        assert Offset(i + 1) == offset + entry.kind.size;
        if entry.index == 0x6060 {
          if !Supported(Value(INT8, payload[offset..offset + entry.kind.size])) {
            return R.Rejected(());
          }
        }
        offset := offset + entry.kind.size;
      }
      WriteOutputs(payload);
      return R.Done(());
    }

    method WriteOutputs(payload: Octets)
      requires |payload| == R.RX_SIZE
      modifies model`od
      ensures model.View() == WriteRx(old(model.View()), DecodeRx(payload))
    {
      hide Value, Word, DecodeRx, WriteObject;
      var offset := 0;
      ghost var before := model.od;
      for i := 0 to |RX_MAPPING|
        invariant offset == Offset(i)
        invariant model.od == before.(rx := WriteMapped(before.rx, payload, i))
      {
        var entry := RX_MAPPING[i];
        OffsetInside(i);
        assert Offset(i + 1) == offset + entry.kind.size;
        var raw := payload[offset..offset + entry.kind.size];
        model.od := model.od.(rx := WriteObject(model.od.rx, entry.index, raw));
        offset := offset + entry.kind.size;
      }
      MappingIsPositional(before.rx, payload);
    }

    /** Encode the mapped objects one after another. */
    method ReadPdo() returns (data: Option<Octets>)
      ensures data == EncodeTx(model.od.tx)
    {
      hide TxField, EncodeTx;
      var tx := model.od.tx;
      var payload: Octets := [];
      PrefixIsImage(tx);
      for i := 0 to TX_FIELDS
        invariant TxPrefix(tx, i) == Some(payload)
      {
        var field := TxField(tx, i);
        if field.None? {
          PrefixFails(tx, i + 1, TX_FIELDS);
          return None;
        }
        payload := payload + field.value;
      }
      return Some(payload);
    }

    method Step(dt: real) returns (outcome: R.Outcome<()>)
      modifies model, model.sm
      ensures match Advance(old(model.View()), dt)
              case Done(s) => outcome.Done? && model.View() == s
              case Rejected(_) => false
              case Crashed(s) => outcome.Crashed? && model.View() == s
    {
      hide ModelUpdate, UpdateTimed;
      model.cycleTime := dt;
      if dt <= 0.0 && UpdateTimed(model.View()) {
        return R.Crashed(());
      }
      model.ModelUpdate();
      return R.Done(());
    }
  }
}

/**
 * The packet structs of src/tdma_protocol.h as they lie in memory (packed, little-endian), and
 * the round trip of every packet type through encoding, encryption and reception.
 */
module Packets {
  import opened PacketCrypto
  import opened Words

  datatype BeaconPacket = BeaconPacket(sfCount: bv16, pktType: bv8, epoch: bv8,
                                       hour: bv8, minute: bv8, second: bv8, slotMask: bv8)

  datatype TelemetryPacket = TelemetryPacket(
    pktType: bv8, nodeId: bv8, uid: bv16, voltage: bv16, current: bv32, power: bv32, energy: bv32,
    frequency: bv16, powerFactor: bv16, statusByte: bv8, schedSH: bv8, schedSM: bv8, schedEH: bv8, schedEM: bv8,
    alarmThreshold: bv16, seqCounter: bv8, beaconRSSI: bv8, fwVersion: bv8)

  datatype JoinRequestPacket = JoinRequestPacket(pktType: bv8, uid: bv16, fwVersion: bv8)

  datatype JoinAckPacket = JoinAckPacket(pktType: bv8, uid: bv16, slotId: bv8)

  // ----- Fields -----

  function LowHalf(x: bv32): bv16 { (x & 0xFFFF) as bv16 }

  function HighHalf(x: bv32): bv16 { (x >> 16) as bv16 }

  function DWord(lo: bv16, hi: bv16): bv32 { (lo as bv32) | ((hi as bv32) << 16) }

  lemma DWordRoundTrip(x: bv32)
    ensures DWord(LowHalf(x), HighHalf(x)) == x
  {
  }

  function Put16(x: bv16): (b: Bytes)
    ensures |b| == 2
  {
    [Low(x), High(x)]
  }

  function Put32(x: bv32): (b: Bytes)
    ensures |b| == 4
  {
    [Low(LowHalf(x)), High(LowHalf(x)), Low(HighHalf(x)), High(HighHalf(x))]
  }

  function Get16(b: Bytes, at: nat): bv16
    requires at + 2 <= |b|
  {
    Word(b[at], b[at + 1])
  }

  function Get32(b: Bytes, at: nat): bv32
    requires at + 4 <= |b|
  {
    DWord(Get16(b, at), Get16(b, at + 2))
  }

  lemma Field16(b: Bytes, at: nat, x: bv16)
    requires at + 2 <= |b| && b[at] == Put16(x)[0] && b[at + 1] == Put16(x)[1]
    ensures Get16(b, at) == x
  {
    WordRoundTrip(x);
  }

  lemma Field32(b: Bytes, at: nat, x: bv32)
    requires at + 4 <= |b| && b[at] == Put32(x)[0] && b[at + 1] == Put32(x)[1]
    requires b[at + 2] == Put32(x)[2] && b[at + 3] == Put32(x)[3]
    ensures Get32(b, at) == x
  {
    Field16(b, at, LowHalf(x));
    Field16(b, at + 2, HighHalf(x));
    DWordRoundTrip(x);
    hide Put16, Put32, Get16, DWord, LowHalf, HighHalf;
  }

  // ----- Structs -----

  function PutBeacon(p: BeaconPacket): (b: Bytes)
    ensures |b| == 8
  {
    Put16(p.sfCount) + [p.pktType, p.epoch, p.hour, p.minute, p.second, p.slotMask]
  }

  function GetBeacon(b: Bytes): BeaconPacket
    requires |b| == 8
  {
    BeaconPacket(Get16(b, 0), b[2], b[3], b[4], b[5], b[6], b[7])
  }

  function IdPart(p: TelemetryPacket): (b: Bytes)
    ensures |b| == 6
  {
    [p.pktType, p.nodeId] + Put16(p.uid) + Put16(p.voltage)
  }

  function MeterPart(p: TelemetryPacket): (b: Bytes)
    ensures |b| == 12
  {
    Put32(p.current) + Put32(p.power) + Put32(p.energy)
  }

  function StatePart(p: TelemetryPacket): (b: Bytes)
    ensures |b| == 14
  {
    Put16(p.frequency) + Put16(p.powerFactor) + [p.statusByte, p.schedSH, p.schedSM, p.schedEH, p.schedEM]
    + Put16(p.alarmThreshold) + [p.seqCounter, p.beaconRSSI, p.fwVersion]
  }

  function PutTelemetry(p: TelemetryPacket): (b: Bytes)
    ensures |b| == 32
  {
    IdPart(p) + MeterPart(p) + StatePart(p)
  }

  function GetTelemetry(b: Bytes): TelemetryPacket
    requires |b| == 32
  {
    TelemetryPacket(b[0], b[1], Get16(b, 2), Get16(b, 4), Get32(b, 6), Get32(b, 10), Get32(b, 14),
                    Get16(b, 18), Get16(b, 20), b[22], b[23], b[24], b[25], b[26],
                    Get16(b, 27), b[29], b[30], b[31])
  }

  function PutJoinRequest(p: JoinRequestPacket): (b: Bytes)
    ensures |b| == 4
  {
    [p.pktType] + Put16(p.uid) + [p.fwVersion]
  }

  function GetJoinRequest(b: Bytes): JoinRequestPacket
    requires |b| == 4
  {
    JoinRequestPacket(b[0], Get16(b, 1), b[3])
  }

  function PutJoinAck(p: JoinAckPacket): (b: Bytes)
    ensures |b| == 4
  {
    [p.pktType] + Put16(p.uid) + [p.slotId]
  }

  function GetJoinAck(b: Bytes): JoinAckPacket
    requires |b| == 4
  {
    JoinAckPacket(b[0], Get16(b, 1), b[3])
  }

  lemma BeaconLayout(p: BeaconPacket)
    ensures GetBeacon(PutBeacon(p)) == p
  {
    hide Put16, Get16;
    Field16(PutBeacon(p), 0, p.sfCount);
  }

  lemma JoinLayout(q: JoinRequestPacket, a: JoinAckPacket)
    ensures GetJoinRequest(PutJoinRequest(q)) == q
    ensures GetJoinAck(PutJoinAck(a)) == a
  {
    hide Put16, Get16;
    Field16(PutJoinRequest(q), 1, q.uid);
    Field16(PutJoinAck(a), 1, a.uid);
  }

  lemma Fields16(before: Bytes, part: Bytes, after: Bytes, at: nat)
    requires at + 2 <= |part|
    ensures Get16(before + part + after, |before| + at) == Get16(part, at)
  {
  }

  lemma Fields32(before: Bytes, part: Bytes, after: Bytes, at: nat)
    requires at + 4 <= |part|
    ensures Get32(before + part + after, |before| + at) == Get32(part, at)
  {
    hide Get16;
    Fields16(before, part, after, at);
    Fields16(before, part, after, at + 2);
  }

  lemma IdLayout(p: TelemetryPacket)
    ensures var b := IdPart(p);
      b[0] == p.pktType && b[1] == p.nodeId && Get16(b, 2) == p.uid && Get16(b, 4) == p.voltage
  {
    hide Put16, Get16;
    Field16(IdPart(p), 2, p.uid);
    Field16(IdPart(p), 4, p.voltage);
  }

  lemma MeterLayout(p: TelemetryPacket)
    ensures var b := MeterPart(p); Get32(b, 0) == p.current && Get32(b, 4) == p.power && Get32(b, 8) == p.energy
  {
    hide Put32, Get32;
    Field32(MeterPart(p), 0, p.current);
    Field32(MeterPart(p), 4, p.power);
    Field32(MeterPart(p), 8, p.energy);
  }

  lemma StateLayout(p: TelemetryPacket)
    ensures var b := StatePart(p);
      && Get16(b, 0) == p.frequency && Get16(b, 2) == p.powerFactor && b[4] == p.statusByte
      && b[5] == p.schedSH && b[6] == p.schedSM && b[7] == p.schedEH && b[8] == p.schedEM
      && Get16(b, 9) == p.alarmThreshold && b[11] == p.seqCounter && b[12] == p.beaconRSSI && b[13] == p.fwVersion
  {
    hide Put16, Get16;
    Field16(StatePart(p), 0, p.frequency);
    Field16(StatePart(p), 2, p.powerFactor);
    Field16(StatePart(p), 9, p.alarmThreshold);
  }

  lemma TelemetryLayout(p: TelemetryPacket)
    ensures GetTelemetry(PutTelemetry(p)) == p
  {
    IdLayout(p);
    MeterLayout(p);
    StateLayout(p);
    hide IdPart, MeterPart, StatePart, Get16, Get32;
    var id, meter, state := IdPart(p), MeterPart(p), StatePart(p);
    assert id + meter + state == [] + id + (meter + state) == (id + meter) + state + [];
    Fields16([], id, meter + state, 2);
    Fields16([], id, meter + state, 4);
    Fields32(id, meter, state, 0);
    Fields32(id, meter, state, 4);
    Fields32(id, meter, state, 8);
    Fields16(id + meter, state, [], 0);
    Fields16(id + meter, state, [], 2);
    Fields16(id + meter, state, [], 9);
  }

  /** Where the fields of the 32-byte telemetry packet lie, as packed by the compiler. */
  lemma TelemetryOffsets(p: TelemetryPacket)
    ensures var b := PutTelemetry(p);
      && b[0] == p.pktType && b[1] == p.nodeId && b[2..4] == Put16(p.uid) && b[4..6] == Put16(p.voltage)
      && b[6..10] == Put32(p.current) && b[10..14] == Put32(p.power) && b[14..18] == Put32(p.energy)
      && b[18..20] == Put16(p.frequency) && b[20..22] == Put16(p.powerFactor)
      && b[22..27] == [p.statusByte, p.schedSH, p.schedSM, p.schedEH, p.schedEM]
      && b[27..29] == Put16(p.alarmThreshold) && b[29..32] == [p.seqCounter, p.beaconRSSI, p.fwVersion]
  {
    PartOffsets(p);
    hide IdPart, MeterPart, StatePart, Put16, Put32;
    var id, meter, state := IdPart(p), MeterPart(p), StatePart(p);
    Sliced([], id, meter + state);
    Sliced(id, meter, state);
    Sliced(id + meter, state, []);
    assert PutTelemetry(p) == [] + id + (meter + state) == (id + meter) + state + [];
  }

  lemma PartOffsets(p: TelemetryPacket)
    ensures var id := IdPart(p);
      id[0] == p.pktType && id[1] == p.nodeId && id[2..4] == Put16(p.uid) && id[4..6] == Put16(p.voltage)
    ensures var meter := MeterPart(p);
      meter[0..4] == Put32(p.current) && meter[4..8] == Put32(p.power) && meter[8..12] == Put32(p.energy)
    ensures var state := StatePart(p);
      && state[0..2] == Put16(p.frequency) && state[2..4] == Put16(p.powerFactor)
      && state[4..9] == [p.statusByte, p.schedSH, p.schedSM, p.schedEH, p.schedEM]
      && state[9..11] == Put16(p.alarmThreshold) && state[11..14] == [p.seqCounter, p.beaconRSSI, p.fwVersion]
  {
    hide Put16, Put32;
    var state := StatePart(p);
    var f, pf, at := Put16(p.frequency), Put16(p.powerFactor), Put16(p.alarmThreshold);
    assert state[0] == f[0] && state[1] == f[1] && state[2] == pf[0] && state[3] == pf[1];
    assert state[9] == at[0] && state[10] == at[1];
  }

  lemma Sliced(before: Bytes, part: Bytes, after: Bytes)
    ensures forall i, j :: 0 <= i <= j <= |part| ==>
              (before + part + after)[|before| + i..|before| + j] == part[i..j]
  {
  }

  /** The other packets, byte by byte, and the order of bytes in a field. */
  lemma SmallOffsets(p: BeaconPacket, q: JoinRequestPacket, a: JoinAckPacket)
    ensures var b := PutBeacon(p);
      && b[..2] == Put16(p.sfCount) && b[2..] == [p.pktType, p.epoch, p.hour, p.minute, p.second, p.slotMask]
    ensures PutJoinRequest(q) == [q.pktType] + Put16(q.uid) + [q.fwVersion]
    ensures PutJoinAck(a) == [a.pktType] + Put16(a.uid) + [a.slotId]
    ensures Put16(0x1234) == [0x34, 0x12] && Put32(0x12345678) == [0x78, 0x56, 0x34, 0x12]
  {
  }

  // ----- Over the air -----

  /** The beacon needs no shared state: its own prefix carries the nonce, and stays readable. */
  lemma BeaconRoundTrip(layer: Layer, p: BeaconPacket, noise: Bytes)
    ensures var air := SendBeacon(layer, PutBeacon(p), p.sfCount);
      && air[..2] == PutBeacon(p)[..2]
      && var got := ReceiveBeacon(layer, air + noise, 8);
         got.Some? && GetBeacon(got.value) == p
  {
    hide Low, High;
    var bytes := PutBeacon(p);
    ReceiveSentBeacon(layer, bytes, p.sfCount, noise);
    BeaconLayout(p);
  }

  /**
   * One superframe of exchanges. The node takes the superframe count from the beacon it decoded,
   * the gateway from its own counter, and every packet in either direction arrives as it was built.
   */
  lemma SuperframeExchange(layer: Layer, beacon: BeaconPacket, slot: bv8,
                           command: Bytes, report: TelemetryPacket,
                           request: JoinRequestPacket, ack: JoinAckPacket)
    ensures
      var gw := beacon.sfCount;
      var heard := ReceiveBeacon(layer, SendBeacon(layer, PutBeacon(beacon), gw), 8);
      && heard.Some?
      && var node := GetBeacon(heard.value).sfCount;
      && Receive(layer, Process(layer, command, gw, slot, DIR_DL), |command|, node, slot, DIR_DL) == Some(command)
      && (var got := Receive(layer, Process(layer, PutTelemetry(report), node, slot, DIR_UL), 32, gw, slot, DIR_UL);
          got.Some? && GetTelemetry(got.value) == report)
      && (var air := Process(layer, PutJoinRequest(request), node, 0, DIR_JOIN_RQ);
          var got := Receive(layer, air, 4, gw, 0, DIR_JOIN_RQ);
          got.Some? && GetJoinRequest(got.value) == request)
      && (var got := Receive(layer, Process(layer, PutJoinAck(ack), gw, 0, DIR_JOIN_AK), 4, node, 0, DIR_JOIN_AK);
          got.Some? && GetJoinAck(got.value) == ack)
  {
    var gw := beacon.sfCount;
    BeaconRoundTrip(layer, beacon, []);
    hide PutBeacon, GetBeacon, PutTelemetry, GetTelemetry, PutJoinRequest, GetJoinRequest, PutJoinAck, GetJoinAck;
    hide SendBeacon, ReceiveBeacon, Process, Receive;
    Unpadded(SendBeacon(layer, PutBeacon(beacon), gw));
    Echo(layer, command, gw, slot, DIR_DL);
    Echo(layer, PutTelemetry(report), gw, slot, DIR_UL);
    Echo(layer, PutJoinRequest(request), gw, 0, DIR_JOIN_RQ);
    Echo(layer, PutJoinAck(ack), gw, 0, DIR_JOIN_AK);
    TelemetryLayout(report);
    JoinLayout(request, ack);
  }

  lemma Unpadded(b: Bytes)
    ensures b + [] == b
  {
  }

  lemma Echo(layer: Layer, packet: Bytes, sf: bv16, slot: bv8, dir: bv8)
    ensures Receive(layer, Process(layer, packet, sf, slot, dir), |packet|, sf, slot, dir) == Some(packet)
  {
    ReceiveProcessed(layer, packet, sf, slot, dir, []);
    Unpadded(Process(layer, packet, sf, slot, dir));
  }

  /** The plain prefix of a beacon is the beginning of its nonce. */
  lemma BeaconNonce(layer: Layer, p: BeaconPacket)
    ensures SendBeacon(layer, PutBeacon(p), p.sfCount)[..2] == NonceOf(p.sfCount, Beacon)[..2]
  {
    hide Process;
  }

  // ----- The status byte -----

  function EncodeStatus(relay: bv8, mode: bv8, sched: bv8, alarm: bv8): bv8 {
    ((alarm & 0x01) << 4) | ((sched & 0x03) << 2) | ((mode & 0x01) << 1) | (relay & 0x01)
  }

  function DecodeRelay(s: bv8): bv8 { s & 0x01 }

  function DecodeMode(s: bv8): bv8 { (s >> 1) & 0x01 }

  function DecodeSched(s: bv8): bv8 { (s >> 2) & 0x03 }

  function DecodeAlarm(s: bv8): bv8 { (s >> 4) & 0x01 }

  /** The fields come back masked to their widths, and two bytes that decode alike agree below bit 5. */
  lemma StatusRoundTrip(relay: bv8, mode: bv8, sched: bv8, alarm: bv8, s: bv8)
    ensures var e := EncodeStatus(relay, mode, sched, alarm);
      && DecodeRelay(e) == relay & 0x01 && DecodeMode(e) == mode & 0x01
      && DecodeSched(e) == sched & 0x03 && DecodeAlarm(e) == alarm & 0x01
    ensures EncodeStatus(DecodeRelay(s), DecodeMode(s), DecodeSched(s), DecodeAlarm(s)) == s & 0x1F
    ensures EncodeStatus(1, 0, 0, 0) == 0x01 && EncodeStatus(0, 1, 0, 0) == 0x02
    ensures EncodeStatus(0, 0, 1, 0) == 0x04 && EncodeStatus(0, 0, 2, 0) == 0x08 && EncodeStatus(0, 0, 0, 1) == 0x10
  {
    assert EncodeStatus(DecodeRelay(s), DecodeMode(s), DecodeSched(s), DecodeAlarm(s)) == s & 0x1F;
  }
}

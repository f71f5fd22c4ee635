/** The interface's mutable state: the `PlcData` and `StationInfo` objects
    and the module globals `numStations`, `stationsData`, `stationsInfo`
    and `simulinkIp`, held by one `Interface` object. Each method is
    proved against the value-level definitions of the other modules:
    `Snapshot()` reads the objects back as a `Globals` value. */
module Bridge {
  import opened PyStr
  import opened Codec
  import opened Config
  import opened PlcLink

  /** `PlcData`: one station's four buffers. */
  class PlcData {
    var analogIn: seq<int>
    var analogOut: seq<int>
    var digitalIn: seq<bool>
    var digitalOut: seq<bool>

    function State(): StationState
      reads this
    {
      StationState(analogIn, analogOut, digitalIn, digitalOut)
    }

    /** `PlcData()`: eight zero words per analog buffer and sixteen `False`
        flags per digital buffer. */
    constructor ()
      ensures State() == Zero()
    {
      analogIn := seq(ANALOG_BUF_SIZE, _ => 0);
      analogOut := seq(ANALOG_BUF_SIZE, _ => 0);
      digitalIn := seq(DIGITAL_BUF_SIZE, _ => false);
      digitalOut := seq(DIGITAL_BUF_SIZE, _ => false);
    }

    /** `pack()`: the 64-byte frame, which `unpack` reads back as this very
        record; `None` stands for the struct.error raised by a value
        outside 0..65535. */
    function Pack(): (r: Option<seq<Byte>>)
      reads this
      ensures r.Some? <==> Packable(State())
      ensures r.Some? ==> |r.value| == FRAME_SIZE && Decode(r.value) == Some(State())
    {
      if Packable(State()) then
        DecodeEncode(State());
        Some(Encode(State()))
      else None
    }

    /** `unpack(packedData)`: replaces all four buffers when the frame has
        64 bytes; otherwise struct.error is raised before any of them
        changes. */
    method Unpack(packedData: seq<Byte>) returns (ok: bool)
      modifies this
      ensures ok <==> |packedData| == FRAME_SIZE
      ensures State() == if ok then Decode(packedData).value else old(State())
    {
      var unpacked := Decode(packedData);
      if unpacked.None? {
        return false;
      }
      analogIn := unpacked.value.analogIn;
      analogOut := unpacked.value.analogOut;
      digitalIn := unpacked.value.digitalIn;
      digitalOut := unpacked.value.digitalOut;
      return true;
    }
  }

  /** `StationInfo`: a station's address and the Simulink ports of its
      scalars. */
  class StationInfo {
    var ip: string
    var analogInPorts: seq<int>
    var analogOutPorts: seq<int>
    var digitalInPorts: seq<int>
    var digitalOutPorts: seq<int>

    function Entry(): StationEntry
      reads this
    {
      StationEntry(ip, analogInPorts, analogOutPorts, digitalInPorts, digitalOutPorts)
    }

    constructor ()
      ensures Entry() == EmptyEntry
    {
      ip := "";
      analogInPorts := [];
      analogOutPorts := [];
      digitalInPorts := [];
      digitalOutPorts := [];
    }

    /** `addPlcPort(line, self)`: reads the type and the port off the line,
        then appends the port to the list the type names. */
    method AddPlcPort(line: string) returns (err: Option<PyError>)
      modifies this
      ensures var r := AddPort(old(Entry()), ReadPortSpec(line));
        (err.None? <==> r.Ok?) && Entry() == if r.Ok? then r.value else old(Entry())
      ensures err.Some? ==> err.value == ValueError
    {
      var kind := GetData(line, '(', ')');
      var data := ParseInt(GetData(line, '"', '"'));
      err := Append(PortSpec(kind, data));
    }

    /** The body of `addPlcPort` once its line is read: `int()` has raised
        ValueError when there is no port; otherwise the four `if`s. */
    method Append(spec: PortSpec) returns (err: Option<PyError>)
      modifies this
      ensures var r := AddPort(old(Entry()), spec);
        (err.None? <==> r.Ok?) && Entry() == if r.Ok? then r.value else old(Entry())
      ensures err.Some? ==> err.value == ValueError
    {
      if spec.port.None? {
        return Some(ValueError);
      }
      var data := spec.port.value;
      if spec.kind == "digital_in" {
        digitalInPorts := digitalInPorts + [data];
      }
      if spec.kind == "digital_out" {
        digitalOutPorts := digitalOutPorts + [data];
      }
      if spec.kind == "analog_in" {
        analogInPorts := analogInPorts + [data];
      }
      if spec.kind == "analog_out" {
        analogOutPorts := analogOutPorts + [data];
      }
      return None;
    }
  }

  /** The receive loop of `exchangeDataWithPLC`: up to eleven `recv`
      calls into a fresh `PlcData()`, stopping at the first datagram that
      `unpack` accepts. */
  method ReceiveReply(outcomes: seq<RecvOutcome>) returns (rcvData: PlcData, counter: nat, rcvDataLen: int)
    ensures fresh(rcvData)
    ensures Receive(outcomes) == Reception(counter, if rcvDataLen == 0 then None else Some(rcvData.State()))
    ensures rcvDataLen >= 0
    ensures rcvDataLen == 0 ==> rcvData.State() == Zero()
  {
    rcvDataLen := 0;
    counter := 0;
    rcvData := new PlcData();
    while rcvDataLen == 0
      invariant 0 <= counter <= 10 && rcvDataLen >= 0
      invariant rcvDataLen == 0 ==> ReceiveFrom(outcomes, counter) == Receive(outcomes) && rcvData.State() == Zero()
      invariant rcvDataLen != 0 ==> Receive(outcomes) == Reception(counter, Some(rcvData.State()))
      decreases 10 - counter + (if rcvDataLen == 0 then 1 else 0)
    {
      match OutcomeAt(outcomes, counter) {
        case Failed =>
          rcvDataLen := 0;
        case Datagram(data) =>
          rcvDataLen := |data|;
          var ok := rcvData.Unpack(data);
          if !ok {
            rcvDataLen := 0;
          }
      }
      counter := counter + 1;
      if counter > 10 {
        break;
      }
    }
  }

  /** `[PlcData() for _ in range(0, n)]`. */
  method NewRecords(n: int) returns (ds: seq<PlcData>)
    ensures |ds| == TableSize(n)
    ensures forall i :: 0 <= i < |ds| ==> fresh(ds[i]) && ds[i].State() == Zero()
    ensures forall i, j :: 0 <= i < j < |ds| ==> ds[i] != ds[j]
  {
    ds := [];
    var c := 0;
    while c < n
      invariant 0 <= c && (c <= n || c == 0) && |ds| == c
      invariant forall i :: 0 <= i < |ds| ==> fresh(ds[i]) && ds[i].State() == Zero()
      invariant forall i, j :: 0 <= i < j < |ds| ==> ds[i] != ds[j]
    {
      var d := new PlcData();
      ds := ds + [d];
      c := c + 1;
    }
  }

  /** `[StationInfo() for _ in range(0, n)]`. */
  method NewEntries(n: int) returns (es: seq<StationInfo>)
    ensures |es| == TableSize(n)
    ensures forall i :: 0 <= i < |es| ==> fresh(es[i]) && es[i].Entry() == EmptyEntry
    ensures forall i, j :: 0 <= i < j < |es| ==> es[i] != es[j]
  {
    es := [];
    var c := 0;
    while c < n
      invariant 0 <= c && (c <= n || c == 0) && |es| == c
      invariant forall i :: 0 <= i < |es| ==> fresh(es[i]) && es[i].Entry() == EmptyEntry
      invariant forall i, j :: 0 <= i < j < |es| ==> es[i] != es[j]
    {
      var e := new StationInfo();
      es := es + [e];
      c := c + 1;
    }
  }

  /** The module globals of the interface. */
  class Interface {
    var numStations: int
    var stationsData: seq<PlcData>
    var stationsInfo: seq<StationInfo>
    var simulinkIp: string

    /** One record per station in both tables, no record shared between
        stations, and every record of the shape `PlcData()` gives it. */
    ghost predicate Valid()
      reads this, stationsData
    {
      |stationsData| == TableSize(numStations) && |stationsInfo| == TableSize(numStations) &&
      (forall i, j :: 0 <= i < j < |stationsData| ==> stationsData[i] != stationsData[j]) &&
      (forall i, j :: 0 <= i < j < |stationsInfo| ==> stationsInfo[i] != stationsInfo[j]) &&
      (forall i :: 0 <= i < |stationsData| ==> WellShaped(stationsData[i].State()))
    }

    function Records(): seq<StationState>
      reads this`stationsData, stationsData
    {
      var ds := stationsData;
      seq(|ds|, i requires 0 <= i < |ds| reads ds => ds[i].State())
    }

    function Roster(): seq<StationEntry>
      reads this`stationsInfo, stationsInfo
    {
      var es := stationsInfo;
      seq(|es|, i requires 0 <= i < |es| reads es => es[i].Entry())
    }

    /** The globals as a value. */
    function Snapshot(): Globals
      reads this, stationsData, stationsInfo
    {
      Globals(numStations, Records(), Roster(), simulinkIp)
    }

    /** The state at import time. */
    constructor ()
      ensures Valid() && Snapshot() == Initial
    {
      numStations := 0;
      stationsData := [];
      stationsInfo := [];
      simulinkIp := "";
    }

    /** One pass of the loop body of `parseConfigFile`. */
    method ParseLine(line: string) returns (err: Option<PyError>)
      requires Valid()
      modifies this, stationsInfo
      ensures Valid()
      ensures forall i :: 0 <= i < |stationsInfo| ==> stationsInfo[i] in old(stationsInfo) || fresh(stationsInfo[i])
      ensures ApplyLine(old(Snapshot()), line) == if err.None? then Ok(Snapshot()) else Err(err.value)
      ensures err.Some? ==> Snapshot() == old(Snapshot())
    {
      var d := Classify(line);
      err := Perform(d);
    }

    /** The branch of `parseConfigFile` a line takes, once the line is read. */
    method Perform(d: Directive) returns (err: Option<PyError>)
      requires Valid()
      modifies this, stationsInfo
      ensures Valid()
      ensures forall i :: 0 <= i < |stationsInfo| ==> stationsInfo[i] in old(stationsInfo) || fresh(stationsInfo[i])
      ensures Execute(old(Snapshot()), d) == if err.None? then Ok(Snapshot()) else Err(err.value)
      ensures err.Some? ==> Snapshot() == old(Snapshot())
    {
      ghost var g := Snapshot();
      match d
      case Raise(e) =>
        err := Some(e);
      case Nothing =>
        err := None;
      case SetNumStations(n) =>
        SetNumStations(n);
        err := None;
        assert Execute(g, d) == Ok(Snapshot());
      case SetSimulinkIp(ip) =>
        simulinkIp := ip;
        err := None;
        assert Execute(g, d) == Ok(Snapshot());
      case SetStationIp(k, ip) =>
        err := SetStationIp(k, ip);
        assert Execute(g, d) == if err.None? then Ok(Snapshot()) else Err(err.value);
      case AddStationPort(k, spec) =>
        err := AddStationPort(k, spec);
        assert Execute(g, d) == if err.None? then Ok(Snapshot()) else Err(err.value);
    }

    /** `numStations = n` and the two list comprehensions after it. */
    method SetNumStations(n: int)
      requires Valid()
      modifies this
      ensures Valid()
      ensures forall i :: 0 <= i < |stationsInfo| ==> fresh(stationsInfo[i])
      ensures Snapshot() == Globals(n, FreshRecords(n), FreshRoster(n), old(simulinkIp))
    {
      numStations := n;
      stationsData := NewRecords(n);
      stationsInfo := NewEntries(n);
      assert Records() == FreshRecords(n);
      assert Roster() == FreshRoster(n);
    }

    /** `stationsInfo[k].ip = ip`. */
    method SetStationIp(k: int, ip: string) returns (err: Option<PyError>)
      requires Valid()
      modifies stationsInfo
      ensures Valid()
      ensures err.Some? <==> PyIndex(k, |stationsInfo|).None?
      ensures err.Some? ==> err.value == IndexError && Snapshot() == old(Snapshot())
      ensures err.None? ==> var i := PyIndex(k, |stationsInfo|).value;
        Snapshot() == old(Snapshot()).(roster := old(Snapshot()).roster[i := old(Snapshot()).roster[i].(ip := ip)])
    {
      ghost var g := Snapshot();
      match PyIndex(k, |stationsInfo|) {
        case None =>
          err := Some(IndexError);
        case Some(i) =>
          stationsInfo[i].ip := ip;
          assert Roster() == g.roster[i := g.roster[i].(ip := ip)];
          err := None;
      }
    }

    /** `addPlcPort(line, stationsInfo[k])`, with the line already read. */
    method AddStationPort(k: int, spec: PortSpec) returns (err: Option<PyError>)
      requires Valid()
      modifies stationsInfo
      ensures Valid()
      ensures var g := old(Snapshot());
        match PyIndex(k, |g.roster|)
        case None => err == Some(IndexError) && Snapshot() == g
        case Some(i) =>
          var r := AddPort(g.roster[i], spec);
          if r.Ok? then err.None? && Snapshot() == g.(roster := g.roster[i := r.value])
          else err == Some(r.error) && Snapshot() == g
    {
      ghost var g := Snapshot();
      match PyIndex(k, |stationsInfo|) {
        case None =>
          err := Some(IndexError);
        case Some(i) =>
          err := stationsInfo[i].Append(spec);
          if err.None? {
            assert Roster() == g.roster[i := AddPort(g.roster[i], spec).value];
          } else {
            assert Roster() == g.roster;
          }
      }
    }

    /** `parseConfigFile()` on the lines of `interface.cfg`: stops at the
        first line that raises. */
    method ParseConfigFile(lines: seq<string>) returns (err: Option<PyError>)
      requires Valid()
      modifies this, stationsInfo
      ensures Valid()
      ensures ParseLines(old(Snapshot()), lines) == Parsed(Snapshot(), err)
    {
      var i := 0;
      while i < |lines|
        invariant 0 <= i <= |lines| && Valid()
        invariant forall j :: 0 <= j < |stationsInfo| ==> stationsInfo[j] in old(stationsInfo) || fresh(stationsInfo[j])
        invariant ParseLines(old(Snapshot()), lines) == ParseLines(Snapshot(), lines[i..])
      {
        ghost var before := Snapshot();
        err := ParseLine(lines[i]);
        ParseLinesStep(before, lines, i);
        if err.Some? {
          return;
        }
        i := i + 1;
      }
      return None;
    }

    /** The locked write of `receiveSimulinkData`: `digitalIn[varIndex] =
        bool(sample)` for a digital input, `analogIn[varIndex] =
        int(sample)` otherwise; `ok` is false for the IndexError of an
        index past the buffer. */
    method ReceiveSample(k: nat, varType: VarType, varIndex: nat, asBool: bool, asInt: int) returns (ok: bool)
      requires Valid() && k < |stationsData|
      modifies stationsData[k]
      ensures Valid()
      ensures ok <==> varIndex < BufferSize(SampleTarget(varType))
      ensures Snapshot() == old(Snapshot()).(data := old(Snapshot()).data[k :=
                if ok then StoreSample(old(Snapshot()).data[k], varType, varIndex, asBool, asInt)
                else old(Snapshot()).data[k]])
    {
      var d := stationsData[k];
      ghost var g := Records();
      if varType == DigitalIn {
        if varIndex >= |d.digitalIn| {
          return false;
        }
        d.digitalIn := d.digitalIn[varIndex := asBool];
      } else {
        if varIndex >= |d.analogIn| {
          return false;
        }
        d.analogIn := d.analogIn[varIndex := asInt];
      }
      assert d.State() == StoreSample(g[k], varType, varIndex, asBool, asInt);
      assert Records() == g[k := d.State()];
      return true;
    }

    /** `stationsData[k] = rcvData` under the buffer lock: the received
        object itself becomes station `k`'s record. */
    method Install(k: nat, rcvData: PlcData)
      requires Valid() && k < |stationsData|
      requires rcvData !in stationsData && WellShaped(rcvData.State())
      modifies this
      ensures Valid()
      ensures Snapshot() == old(Snapshot()).(data := old(Snapshot()).data[k := rcvData.State()])
    {
      ghost var g := Snapshot();
      stationsData := stationsData[k := rcvData];
      assert Records() == g.data[k := rcvData.State()];
    }

    /** One pass of the `while True` loop of `exchangeDataWithPLC(k)`, as
        written; `sent` is what the `send` call does and `outcomes` what the
        successive `recv` calls yield. */
    method ExchangeRound(k: nat, sent: SendOutcome, outcomes: seq<RecvOutcome>) returns (end: RoundEnd)
      requires Valid() && k < |stationsData|
      modifies this
      ensures Valid()
      ensures var r := Round(old(Snapshot()).data[k], sent, outcomes);
        end == r.end && Snapshot() == old(Snapshot()).(data := old(Snapshot()).data[k := r.data])
    {
      var dataToSend := stationsData[k].Pack();
      if dataToSend.None? {
        return PackRaised;
      }
      if sent.SendFailed? {
        return SendRaised;
      }
      if sent.len != |dataToSend.value| {
        return SendShort;
      }
      var rcvData, counter, rcvDataLen := ReceiveReply(outcomes);
      Install(k, rcvData);
      return Exchanged(counter);
    }

    /** The same round with the exhausted receive loop reported as an
        error, as the `rcvDataLen < 0` test intends: a frame received at
        any of the eleven attempts replaces the record, and a station that
        never answers keeps the record it had. */
    method IntendedExchangeRound(k: nat, sent: SendOutcome, outcomes: seq<RecvOutcome>) returns (end: RoundEnd)
      requires Valid() && k < |stationsData|
      modifies this
      ensures Valid()
      ensures var r := IntendedRound(old(Snapshot()).data[k], sent, outcomes);
        end == r.end && Snapshot() == old(Snapshot()).(data := old(Snapshot()).data[k := r.data])
    {
      ghost var prev := stationsData[k].State();
      var dataToSend := stationsData[k].Pack();
      if dataToSend.None? {
        assert IntendedRound(prev, sent, outcomes) == RoundResult(PackRaised, prev);
        return PackRaised;
      }
      if sent.SendFailed? {
        assert IntendedRound(prev, sent, outcomes) == RoundResult(SendRaised, prev);
        return SendRaised;
      }
      if sent.len != |dataToSend.value| {
        assert IntendedRound(prev, sent, outcomes) == RoundResult(SendShort, prev);
        return SendShort;
      }
      var rcvData, counter, rcvDataLen := ReceiveReply(outcomes);
      if rcvDataLen == 0 {
        assert IntendedRound(prev, sent, outcomes) == RoundResult(NoReply, prev);
        return NoReply;
      }
      assert IntendedRound(prev, sent, outcomes) == RoundResult(Exchanged(counter), rcvData.State());
      Install(k, rcvData);
      return Exchanged(counter);
    }
  }
}

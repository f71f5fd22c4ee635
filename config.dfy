/** Reading `interface.cfg`: the helpers `getData`, `getStationNumber`,
    `getFunction` and `addPlcPort`, and the per-line dispatch of
    `parseConfigFile` as a fold over the file's lines. The file's state
    (the module globals `numStations`, `stationsData`, `stationsInfo` and
    `simulinkIp`) is the value `Globals`. */
module Config {
  import opened PyStr
  import opened Codec

  /** The exceptions that escape `parseConfigFile` and end the program. */
  datatype PyError = ValueError | IndexError

  datatype Result<T> = Ok(value: T) | Err(error: PyError)

  /** The contents of a `StationInfo` object: a station's address and the
      Simulink UDP ports of its scalars, in configuration order. */
  datatype StationEntry = StationEntry(
    ip: string,
    analogInPorts: seq<int>,
    analogOutPorts: seq<int>,
    digitalInPorts: seq<int>,
    digitalOutPorts: seq<int>)

  /** A freshly constructed `StationInfo()`. */
  const EmptyEntry := StationEntry("", [], [], [], [])

  function Ports(e: StationEntry, t: VarType): seq<int> {
    match t
    case AnalogIn => e.analogInPorts
    case AnalogOut => e.analogOutPorts
    case DigitalIn => e.digitalInPorts
    case DigitalOut => e.digitalOutPorts
  }

  /** The list a port type written in parentheses names. */
  function PortClass(name: string): Option<VarType> {
    if name == "digital_in" then Some(DigitalIn)
    else if name == "digital_out" then Some(DigitalOut)
    else if name == "analog_in" then Some(AnalogIn)
    else if name == "analog_out" then Some(AnalogOut)
    else None
  }

  /** The module globals the configuration file sets. */
  datatype Globals = Globals(
    numStations: int,
    data: seq<StationState>,
    roster: seq<StationEntry>,
    simulinkIp: string)

  /** The state before the file is read. */
  const Initial := Globals(0, [], [], "")

  /** `len(range(0, n))`. */
  function TableSize(n: int): nat {
    if n < 0 then 0 else n
  }

  /** Both tables hold one record per station. */
  predicate Consistent(g: Globals) {
    |g.data| == TableSize(g.numStations) && |g.roster| == TableSize(g.numStations)
  }

  /** `[PlcData() for _ in range(0, n)]`. */
  function FreshRecords(n: int): (r: seq<StationState>)
    ensures |r| == TableSize(n) && forall i :: 0 <= i < |r| ==> r[i] == Zero()
  {
    seq(TableSize(n), _ => Zero())
  }

  /** `[StationInfo() for _ in range(0, n)]`. */
  function FreshRoster(n: int): (r: seq<StationEntry>)
    ensures |r| == TableSize(n) && forall i :: 0 <= i < |r| ==> r[i] == EmptyEntry
  {
    seq(TableSize(n), _ => EmptyEntry)
  }

  // ---------------------------------------------------------------------
  // getData, getStationNumber, getFunction
  // ---------------------------------------------------------------------

  /** `getData(line, s1, s2)`: the text between the first `s1` and the next
      `s2` after it, or the empty text when either is missing. */
  function GetData(line: string, s1: char, s2: char): (r: string)
    ensures s1 !in line ==> r == []
    ensures s2 !in r
  {
    var sep1Idx := Find(line, s1);
    var sep2Idx := Find(line[sep1Idx + 1..], s2) + sep1Idx + 1;
    if sep1Idx >= 0 && sep1Idx < sep2Idx then
      assert line[sep1Idx + 1..sep2Idx] == line[sep1Idx + 1..][..sep2Idx - sep1Idx - 1];
      line[sep1Idx + 1..sep2Idx]
    else []
  }

  /** `getData` in terms of where the two `find` calls land. */
  lemma GetDataAt(line: string, s1: char, s2: char, i: nat, j: nat)
    requires i < |line| && Find(line, s1) == i
    requires Find(line[i + 1..], s2) == j
    ensures GetData(line, s1, s2) == line[i + 1..i + 1 + j]
  {
    var tail := line[i + 1..];
    assert 0 <= j <= |tail| && i + 1 + j <= |line|;
    assert i < i + 1 + j;
  }

  /** With the first `s1` and the next `s2` in place, `getData` returns
      exactly the text between them. */
  lemma GetDataBetween(pre: string, s1: char, mid: string, s2: char, post: string)
    requires s1 !in pre && s2 !in mid
    ensures GetData(pre + [s1] + (mid + [s2] + post), s1, s2) == mid
  {
    var rest := mid + [s2] + post;
    var line := pre + [s1] + rest;
    FindAt(pre, s1, rest);
    FindAt(mid, s2, post);
    assert line[|pre| + 1..] == rest;
    GetDataAt(line, s1, s2, |pre|, |mid|);
    assert line[|pre| + 1..|pre| + 1 + |mid|] == rest[..|mid|] == mid;
  }

  /** No `s2` after the first `s1`: `getData` returns the empty text. */
  lemma GetDataUnclosed(pre: string, s1: char, rest: string, s2: char)
    requires s1 !in pre && s2 !in rest
    ensures GetData(pre + [s1] + rest, s1, s2) == []
  {
    var line := pre + [s1] + rest;
    FindAt(pre, s1, rest);
    assert line[|pre| + 1..] == rest;
  }

  /** `line[7:]`: what follows the prefix `station`. */
  function AfterStation(line: string): string {
    if |line| >= 7 then line[7..] else []
  }

  /** `getStationNumber(line)`: `int(line[7:].split('.')[0])`; `None`
      stands for the ValueError of `int`. */
  function GetStationNumber(line: string): Option<int> {
    ParseInt(FirstField(AfterStation(line), '.'))
  }

  /** The number written between `station` and the first `.` is the one
      read back. */
  lemma StationNumberOf(k: int, rest: string)
    ensures GetStationNumber("station" + Render(k) + "." + rest) == Some(k)
  {
    var d := Render(k);
    var line := "station" + d + "." + rest;
    assert AfterStation(line) == d + ['.'] + rest;
    assert '.' !in d by {
      assert forall i :: 0 <= i < |d| ==> d[i] != '.';
    }
    FindAt(d, '.', rest);
    assert FirstField(AfterStation(line), '.') == [] + d + [];
    ParseIntRender([], k, []);
  }

  /** `getFunction(line)`: the text after the first `.` up to the next `.`,
      `=` or `(`, with the whitespace around it stripped; `None` stands for
      the IndexError of `split('.')[1]` on a line without a dot. */
  function GetFunction(line: string): (r: Option<string>)
    ensures r.None? <==> '.' !in line
    ensures r.Some? ==> '.' !in r.value && '=' !in r.value && '(' !in r.value
    ensures r.Some? ==> r.value == [] || (!IsSpace(r.value[0]) && !IsSpace(r.value[|r.value| - 1]))
  {
    match SecondField(line, '.')
    case None => None
    case Some(field) =>
      var head := UntilAny(field, {'=', '('});
      var name := Strip(head);
      NotInPart(head, field, '.');
      NotInPart(name, head, '.');
      NotInPart(name, head, '=');
      NotInPart(name, head, '(');
      Some(name)
  }

  /** A character missing from `s` is missing from every text made of
      characters of `s`. */
  lemma NotInPart(r: string, s: string, c: char)
    requires forall i :: 0 <= i < |r| ==> r[i] in s
    requires c !in s
    ensures c !in r
  {
  }

  /** The name written after the first dot and before `=` or `(` (with
      whitespace between) is the one read back. */
  lemma FunctionOf(head: string, name: string, ws: string, stop: char, tail: string)
    requires '.' !in head
    requires '.' !in name && '=' !in name && '(' !in name
    requires name == [] || (!IsSpace(name[0]) && !IsSpace(name[|name| - 1]))
    requires AllSpace(ws) && (stop == '=' || stop == '(')
    ensures GetFunction(head + "." + (name + ws + [stop] + tail)) == Some(name)
  {
    var p := name + ws;
    var after := p + [stop] + tail;
    assert head + "." + after == head + ['.'] + after;
    SecondFieldAt(head, '.', after);
    SpaceHasNoStop(ws);
    assert '.' !in p && '=' !in p && '(' !in p;
    FieldHead(p, stop, tail);
    StripPadded([], name, ws);
    assert [] + name + ws == p;
    GetFunctionOf(head + ['.'] + after, FirstField(after, '.'), p, name);
  }

  /** Whitespace contains none of the characters `getFunction` splits at. */
  lemma SpaceHasNoStop(ws: string)
    requires AllSpace(ws)
    ensures '.' !in ws && '=' !in ws && '(' !in ws
  {
    assert forall i :: 0 <= i < |ws| ==> ws[i] != '.' && ws[i] != '=' && ws[i] != '(';
  }

  /** The part of a field that `re.split` keeps. */
  lemma FieldHead(p: string, stop: char, tail: string)
    requires '.' !in p && '=' !in p && '(' !in p
    requires stop == '=' || stop == '('
    ensures UntilAny(FirstField(p + [stop] + tail, '.'), {'=', '('}) == p
  {
    FirstFieldPast(p + [stop], '.', tail);
    var field := FirstField(p + [stop] + tail, '.');
    assert p <= field && field[|p|] == stop;
    UntilAnyPrefix(p, field, {'=', '('});
  }

  /** `getFunction` is the composition of its three steps. */
  lemma GetFunctionOf(line: string, field: string, p: string, name: string)
    requires SecondField(line, '.') == Some(field)
    requires UntilAny(field, {'=', '('}) == p && Strip(p) == name
    ensures GetFunction(line) == Some(name)
  {
  }

  /** `re.split` stops at the first separator it meets. */
  lemma {:induction false} UntilAnyPrefix(p: string, s: string, stops: set<char>)
    requires p <= s && |p| < |s| && s[|p|] in stops
    requires forall c :: c in p ==> c !in stops
    ensures UntilAny(s, stops) == p
  {
    if p != [] {
      assert p[1..] <= s[1..];
      UntilAnyPrefix(p[1..], s[1..], stops);
    }
  }

  // ---------------------------------------------------------------------
  // addPlcPort
  // ---------------------------------------------------------------------

  /** The entry with `port` appended to its list of type `t`. */
  function WithPort(e: StationEntry, t: VarType, port: int): (r: StationEntry)
    ensures r.ip == e.ip
    ensures forall u :: Ports(r, u) == if u == t then Ports(e, u) + [port] else Ports(e, u)
  {
    match t
    case DigitalIn => e.(digitalInPorts := e.digitalInPorts + [port])
    case DigitalOut => e.(digitalOutPorts := e.digitalOutPorts + [port])
    case AnalogIn => e.(analogInPorts := e.analogInPorts + [port])
    case AnalogOut => e.(analogOutPorts := e.analogOutPorts + [port])
  }

  /** What `addPlcPort` reads off its line: the port type between the
      parentheses and `int()` of the text between the quotes (`None` for
      its ValueError). */
  datatype PortSpec = PortSpec(kind: string, port: Option<int>)

  function ReadPortSpec(line: string): PortSpec {
    PortSpec(GetData(line, '(', ')'), ParseInt(GetData(line, '"', '"')))
  }

  /** `addPlcPort(line, stationInfo)` once its line is read: the port is
      appended to the one list the type names (the four `if`s test
      distinct names, so at most one fires); an unknown type leaves every
      list as it was, and a port that is not a number raises ValueError
      before anything changes. */
  function AddPort(e: StationEntry, spec: PortSpec): (r: Result<StationEntry>)
    ensures r.Err? <==> spec.port.None?
    ensures r.Err? ==> r.error == ValueError
    ensures r.Ok? ==> r.value.ip == e.ip
    ensures r.Ok? ==> forall t ::
              Ports(r.value, t) == if PortClass(spec.kind) == Some(t) then Ports(e, t) + [spec.port.value] else Ports(e, t)
  {
    match spec.port
    case None => Err(ValueError)
    case Some(port) =>
      match PortClass(spec.kind)
      case None => Ok(e)
      case Some(t) => Ok(WithPort(e, t, port))
  }

  /** A line of the form `... (digital_in) ... "5001" ...` names the type
      and the port written there. */
  lemma ReadPortSpecOf(a: string, kind: string, b: string, port: int, c: string)
    requires '(' !in a && ')' !in kind
    requires '"' !in a + "(" + kind + ")" + b
    ensures ReadPortSpec(a + "(" + kind + ")" + b + "\"" + Render(port) + "\"" + c) == PortSpec(kind, Some(port))
  {
    var d := Render(port);
    var head := a + "(" + kind + ")" + b;
    var line := head + "\"" + d + "\"" + c;
    GetDataIn(line, a, '(', kind, ')', b + "\"" + d + "\"" + c);
    assert '"' !in d by {
      assert forall i :: 0 <= i < |d| ==> d[i] != '"';
    }
    GetDataIn(line, head, '"', d, '"', c);
    ParseIntRender([], port, []);
    assert [] + d + [] == d;
  }

  /** `GetDataBetween` for a line given whole. */
  lemma GetDataIn(line: string, pre: string, s1: char, mid: string, s2: char, post: string)
    requires line == pre + [s1] + mid + [s2] + post
    requires s1 !in pre && s2 !in mid
    ensures GetData(line, s1, s2) == mid
  {
    assert line == pre + [s1] + (mid + [s2] + post);
    GetDataBetween(pre, s1, mid, s2, post);
  }

  // ---------------------------------------------------------------------
  // parseConfigFile
  // ---------------------------------------------------------------------

  /** Which branch of `parseConfigFile` a line takes. */
  datatype LineKind = Empty | Skipped | NumStations | CommDelay | Simulink | Station | Ignored

  function Kind(line: string): LineKind {
    if |line| == 0 then Empty
    else if line[0] == '#' || |line| <= 1 then Skipped
    else if StartsWith(line, "num_stations") then NumStations
    else if StartsWith(line, "comm_delay") then CommDelay
    else if StartsWith(line, "simulink") then Simulink
    else if StartsWith(line, "station") then Station
    else Ignored
  }

  /** `int(getData(line, '"', '"'))`. */
  function QuotedInt(line: string): Option<int> {
    ParseInt(GetData(line, '"', '"'))
  }

  /** What the loop body of `parseConfigFile` does with one line, once the
      line is read: raise, do nothing, or set one of the globals. */
  datatype Directive =
    | Raise(error: PyError)
    | Nothing
    | SetNumStations(n: int)
    | SetSimulinkIp(ip: string)
    | SetStationIp(station: int, ip: string)
    | AddStationPort(station: int, spec: PortSpec)

  /** The `if`/`elif` chain of `parseConfigFile`, in the source's order:
      an empty line raises at `line[0]`, `int()` raises ValueError, and a
      `comm_delay` value is only converted into a local. */
  function Classify(line: string): Directive {
    match Kind(line)
    case Empty => Raise(IndexError)
    case Skipped => Nothing
    case NumStations =>
      (match QuotedInt(line)
       case None => Raise(ValueError)
       case Some(n) => SetNumStations(n))
    case CommDelay => if QuotedInt(line).None? then Raise(ValueError) else Nothing
    case Simulink => SetSimulinkIp(GetData(line, '"', '"'))
    case Station => StationDirective(GetStationNumber(line), GetFunction(line), line)
    case Ignored => Nothing
  }

  /** The `station` branch, once `getStationNumber` and `getFunction` have
      run: `int()` raises ValueError first, then `split('.')[1]` raises
      IndexError; a function name other than `ip` and `add` is ignored. */
  function StationDirective(number: Option<int>, name: Option<string>, line: string): Directive {
    match number
    case None => Raise(ValueError)
    case Some(k) =>
      match name
      case None => Raise(IndexError)
      case Some(f) =>
        if f == "ip" then SetStationIp(k, GetData(line, '"', '"'))
        else if f == "add" then AddStationPort(k, ReadPortSpec(line))
        else Nothing
  }

  /** An empty line raises; comments, one-character lines and unknown keys
      have no effect; a `comm_delay` line at most raises. */
  lemma ClassifyInert(line: string)
    ensures Kind(line) == Empty ==> Classify(line) == Raise(IndexError)
    ensures Kind(line) in {Skipped, Ignored} ==> Classify(line) == Nothing
    ensures Kind(line) == CommDelay ==> Classify(line) in {Nothing, Raise(ValueError)}
  {
  }

  /** Only a `num_stations` line with a number resizes the tables. */
  lemma ClassifyNumStations(line: string)
    ensures Classify(line).SetNumStations? <==> Kind(line) == NumStations && QuotedInt(line).Some?
    ensures Classify(line).SetNumStations? ==> QuotedInt(line) == Some(Classify(line).n)
  {
    if Kind(line) == Station {
      StationDirectiveKinds(GetStationNumber(line), GetFunction(line), line);
    }
  }

  /** Only a `simulink` line sets the Simulink address. */
  lemma ClassifySimulink(line: string)
    ensures Classify(line).SetSimulinkIp? <==> Kind(line) == Simulink
  {
    if Kind(line) == Station {
      StationDirectiveKinds(GetStationNumber(line), GetFunction(line), line);
    }
  }

  /** Only a `station` line addresses a roster entry, the one its number
      names. */
  lemma ClassifyStationKey(line: string)
    ensures Classify(line).SetStationIp? || Classify(line).AddStationPort? ==>
      Kind(line) == Station && GetStationNumber(line) == Some(Classify(line).station)
  {
    if Kind(line) == Station {
      StationDirectiveKinds(GetStationNumber(line), GetFunction(line), line);
    }
  }

  lemma StationDirectiveKinds(number: Option<int>, name: Option<string>, line: string)
    ensures !StationDirective(number, name, line).SetNumStations?
    ensures !StationDirective(number, name, line).SetSimulinkIp?
    ensures var d := StationDirective(number, name, line);
      d.SetStationIp? || d.AddStationPort? ==> number == Some(d.station)
  {
  }

  /** A station line of the form `station<k>.ip = "..."` or
      `station<k>.add(..) ... "..."` addresses entry `k`. */
  lemma ClassifyStation(k: int, name: string, ws: string, stop: char, tail: string)
    requires name == "ip" || name == "add"
    requires AllSpace(ws) && (stop == '=' || stop == '(')
    ensures var line := "station" + Render(k) + "." + (name + ws + [stop] + tail);
      Classify(line) == if name == "ip" then SetStationIp(k, GetData(line, '"', '"'))
                        else AddStationPort(k, ReadPortSpec(line))
  {
    var d := Render(k);
    var rest := name + ws + [stop] + tail;
    var line := "station" + d + "." + rest;
    StationHeadHasNoDot(k);
    assert '.' !in name && '=' !in name && '(' !in name && !IsSpace(name[0]) && !IsSpace(name[|name| - 1]);
    FunctionOf("station" + d, name, ws, stop, tail);
    StationNumberOf(k, rest);
    StationKind(d, rest);
    StationClassified(line, k, name);
  }

  lemma StationHeadHasNoDot(k: int)
    ensures '.' !in "station" + Render(k)
  {
    var d := Render(k);
    assert forall i :: 0 <= i < |d| ==> d[i] != '.';
  }

  /** Every line that starts with `station` takes the `station` branch. */
  lemma StationKind(d: string, rest: string)
    ensures Kind("station" + d + "." + rest) == Station
  {
    var line := "station" + d + "." + rest;
    StartsWithPrefix(line, "station");
    assert line[0] == 's' && line[1] == 't';
  }

  /** The `station` branch once the number and function name are read. */
  lemma StationClassified(line: string, k: int, f: string)
    requires Kind(line) == Station
    requires GetStationNumber(line) == Some(k) && GetFunction(line) == Some(f)
    ensures Classify(line) == StationDirective(Some(k), Some(f), line)
  {
  }

  /** Roster entry `k` of a station directive, as Python indexes the list. */
  function StationSlot(g: Globals, d: Directive): Option<nat> {
    if d.SetStationIp? || d.AddStationPort? then PyIndex(d.station, |g.roster|) else None
  }

  /** Carrying out a directive on the globals. */
  function Execute(g: Globals, d: Directive): (r: Result<Globals>)
    // a failing line changes nothing, and only these raise
    ensures r.Err? <==> d.Raise?
                        || ((d.SetStationIp? || d.AddStationPort?) && StationSlot(g, d).None?)
                        || (d.AddStationPort? && StationSlot(g, d).Some? && d.spec.port.None?)
    // num_stations replaces both tables by n fresh records
    ensures d.SetNumStations? ==>
      r.Ok? && r.value.numStations == d.n && r.value.simulinkIp == g.simulinkIp && Consistent(r.value) &&
      (forall i :: 0 <= i < |r.value.data| ==> r.value.data[i] == Zero()) &&
      (forall i :: 0 <= i < |r.value.roster| ==> r.value.roster[i] == EmptyEntry)
    // every other directive keeps the station count and the data table
    ensures r.Ok? && !d.SetNumStations? ==>
      r.value.numStations == g.numStations && r.value.data == g.data && |r.value.roster| == |g.roster|
    // only a simulink line sets the Simulink address
    ensures r.Ok? && !d.SetNumStations? ==>
      r.value.simulinkIp == if d.SetSimulinkIp? then d.ip else g.simulinkIp
    // a station line changes at most the roster entry it names
    ensures r.Ok? && !d.SetNumStations? ==>
      forall j :: 0 <= j < |g.roster| && r.value.roster[j] != g.roster[j] ==> StationSlot(g, d) == Some(j)
    // and that entry gets the address, or the port as addPlcPort appends it
    ensures r.Ok? && StationSlot(g, d).Some? ==>
      var i := StationSlot(g, d).value;
      r.value.roster[i] == if d.SetStationIp? then g.roster[i].(ip := d.ip) else AddPort(g.roster[i], d.spec).value
    // one record per station in both tables
    ensures Consistent(g) && r.Ok? ==> Consistent(r.value)
  {
    match d
    case Raise(e) => Err(e)
    case Nothing => Ok(g)
    case SetNumStations(n) =>
      Ok(Globals(n, FreshRecords(n), FreshRoster(n), g.simulinkIp))
    case SetSimulinkIp(ip) => Ok(g.(simulinkIp := ip))
    case SetStationIp(k, ip) =>
      (match PyIndex(k, |g.roster|)
       case None => Err(IndexError)
       case Some(i) => Ok(g.(roster := g.roster[i := g.roster[i].(ip := ip)])))
    case AddStationPort(k, spec) =>
      match PyIndex(k, |g.roster|)
      case None => Err(IndexError)
      case Some(i) =>
        match AddPort(g.roster[i], spec)
        case Err(e) => Err(e)
        case Ok(entry) => Ok(g.(roster := g.roster[i := entry]))
  }

  /** One pass of the loop body of `parseConfigFile`. A line either takes
      full effect or raises before changing anything. */
  function ApplyLine(g: Globals, line: string): Result<Globals> {
    Execute(g, Classify(line))
  }

  /** Where reading stopped: the globals after the last line that took
      effect, and the exception that ended the program, if any. */
  datatype Parsed = Parsed(globals: Globals, error: Option<PyError>)

  /** `for line in cfgfile`: the lines in order, until one raises. */
  function ParseLines(g: Globals, lines: seq<string>): Parsed
    decreases |lines|
  {
    if lines == [] then Parsed(g, None)
    else
      match ApplyLine(g, lines[0])
      case Err(e) => Parsed(g, Some(e))
      case Ok(g') => ParseLines(g', lines[1..])
  }

  /** The fold from line `i` on takes line `i` first. */
  lemma ParseLinesStep(g: Globals, lines: seq<string>, i: nat)
    requires i < |lines|
    ensures ParseLines(g, lines[i..]) ==
      var r := ApplyLine(g, lines[i]);
      if r.Err? then Parsed(g, Some(r.error)) else ParseLines(r.value, lines[i + 1..])
  {
    assert lines[i..][0] == lines[i] && lines[i..][1..] == lines[i + 1..];
  }

  /** Reading a file keeps one record per station in both tables. */
  lemma {:induction false} ParseLinesConsistent(g: Globals, lines: seq<string>)
    requires Consistent(g)
    ensures Consistent(ParseLines(g, lines).globals)
    decreases |lines|
  {
    if lines != [] {
      match ApplyLine(g, lines[0])
      case Err(_) =>
      case Ok(g') => ParseLinesConsistent(g', lines[1..]);
    }
  }

  /** Reading two pieces of a file one after the other is reading the whole file. */
  lemma {:induction false} ParseLinesAppend(g: Globals, a: seq<string>, b: seq<string>)
    ensures ParseLines(g, a + b) ==
      (var p := ParseLines(g, a); if p.error.Some? then p else ParseLines(p.globals, b))
    decreases |a|
  {
    if a == [] {
      assert a + b == b;
    } else {
      assert (a + b)[0] == a[0] && (a + b)[1..] == a[1..] + b;
      match ApplyLine(g, a[0])
      case Err(_) =>
      case Ok(g') => ParseLinesAppend(g', a[1..], b);
    }
  }

  /** Comments and blank lines may be inserted anywhere without effect. */
  lemma {:induction false} SkippedLineInert(g: Globals, a: seq<string>, line: string, b: seq<string>)
    requires Kind(line) == Skipped
    ensures ParseLines(g, a + [line] + b) == ParseLines(g, a + b)
  {
    ParseLinesAppend(g, a, [line] + b);
    ParseLinesAppend(g, a, b);
    assert a + [line] + b == a + ([line] + b);
    var p := ParseLines(g, a);
    ClassifyInert(line);
    assert ([line] + b)[0] == line && ([line] + b)[1..] == b;
    assert ParseLines(p.globals, [line] + b) == ParseLines(p.globals, b);
  }
}

/** One round of `exchangeDataWithPLC` for one station: pack the station's
    record, send it, then try up to eleven times to receive a frame back
    and install what was received as the station's new record. The
    socket is replaced by what its calls return: the length `send`
    reports and the outcome of each `recv`. */
module PlcLink {
  import opened PyStr
  import opened Codec

  /** What one `recv` call yields: a timeout or socket error (the bare
      `except` of the receive loop), or a datagram. */
  datatype RecvOutcome = Failed | Datagram(bytes: seq<Byte>)

  /** `counter > 10` ends the receive loop after the eleventh attempt. */
  const MAX_ATTEMPTS: nat := 11

  /** The outcome of attempt `i`, counting from 0; attempts beyond the
      given outcomes time out. */
  function OutcomeAt(o: seq<RecvOutcome>, i: nat): RecvOutcome {
    if i < |o| then o[i] else Failed
  }

  /** One pass through the `try` block: the record `rcvData.unpack` accepts,
      or `None` when `recv` failed or `unpack` raised struct.error. */
  function Attempt(x: RecvOutcome): (r: Option<StationState>)
    ensures r.Some? <==> x.Datagram? && |x.bytes| == FRAME_SIZE
    ensures r.Some? ==> Packable(r.value)
  {
    match x
    case Failed => None
    case Datagram(b) => Decode(b)
  }

  /** How a receive loop ended: the number of attempts it made and the
      frame it obtained, if any. */
  datatype Reception = Reception(attempts: nat, frame: Option<StationState>)

  /** The receive loop from attempt `counter` on: it stops at the first
      frame, or once `counter` exceeds 10. */
  function ReceiveFrom(o: seq<RecvOutcome>, counter: nat): (r: Reception)
    requires counter < MAX_ATTEMPTS
    decreases MAX_ATTEMPTS - counter
    ensures counter < r.attempts <= MAX_ATTEMPTS
    ensures r.frame.Some? ==> r.frame == Attempt(OutcomeAt(o, r.attempts - 1))
    ensures r.frame.None? ==> r.attempts == MAX_ATTEMPTS
    ensures r.frame.None? ==> Attempt(OutcomeAt(o, MAX_ATTEMPTS - 1)).None?
    ensures forall i :: counter <= i < r.attempts - 1 ==> Attempt(OutcomeAt(o, i)).None?
  {
    match Attempt(OutcomeAt(o, counter))
    case Some(f) => Reception(counter + 1, Some(f))
    case None =>
      if counter + 1 > 10 then Reception(counter + 1, None)
      else ReceiveFrom(o, counter + 1)
  }

  /** The whole receive loop of one round. */
  function Receive(o: seq<RecvOutcome>): Reception {
    ReceiveFrom(o, 0)
  }

  /** The first attempt that yields a frame ends the loop, and its frame is
      the one kept. */
  lemma FirstFrameWins(o: seq<RecvOutcome>, j: nat)
    requires j < MAX_ATTEMPTS && Attempt(OutcomeAt(o, j)).Some?
    requires forall i :: 0 <= i < j ==> Attempt(OutcomeAt(o, i)).None?
    ensures Receive(o) == Reception(j + 1, Attempt(OutcomeAt(o, j)))
  {
    FirstFrameFrom(o, 0, j);
  }

  lemma {:induction false} FirstFrameFrom(o: seq<RecvOutcome>, counter: nat, j: nat)
    requires counter <= j < MAX_ATTEMPTS && Attempt(OutcomeAt(o, j)).Some?
    requires forall i :: counter <= i < j ==> Attempt(OutcomeAt(o, i)).None?
    ensures ReceiveFrom(o, counter) == Reception(j + 1, Attempt(OutcomeAt(o, j)))
    decreases j - counter
  {
    if counter < j {
      FirstFrameFrom(o, counter + 1, j);
    }
  }

  /** Eleven failed attempts end the loop with nothing received. */
  lemma NoFrameExhausts(o: seq<RecvOutcome>)
    requires forall i :: 0 <= i < MAX_ATTEMPTS ==> Attempt(OutcomeAt(o, i)).None?
    ensures Receive(o) == Reception(MAX_ATTEMPTS, None)
  {
    NoFrameFrom(o, 0);
  }

  lemma {:induction false} NoFrameFrom(o: seq<RecvOutcome>, counter: nat)
    requires counter < MAX_ATTEMPTS
    requires forall i :: counter <= i < MAX_ATTEMPTS ==> Attempt(OutcomeAt(o, i)).None?
    ensures ReceiveFrom(o, counter) == Reception(MAX_ATTEMPTS, None)
    decreases MAX_ATTEMPTS - counter
  {
    if counter + 1 < MAX_ATTEMPTS {
      NoFrameFrom(o, counter + 1);
    }
  }

  /** Only the first eleven outcomes matter. */
  lemma {:induction false} ReceiveIgnoresLater(o: seq<RecvOutcome>, p: seq<RecvOutcome>, counter: nat)
    requires counter < MAX_ATTEMPTS
    requires forall i :: counter <= i < MAX_ATTEMPTS ==> OutcomeAt(o, i) == OutcomeAt(p, i)
    ensures ReceiveFrom(o, counter) == ReceiveFrom(p, counter)
    decreases MAX_ATTEMPTS - counter
  {
    if counter + 1 < MAX_ATTEMPTS {
      ReceiveIgnoresLater(o, p, counter + 1);
    }
  }

  // ---------------------------------------------------------------------
  // One round
  // ---------------------------------------------------------------------

  /** What the `send` call does: raise OSError (the call stands outside any
      `try`), or report how many bytes it sent. */
  datatype SendOutcome = SendFailed | Sent(len: int)

  /** How a round ended: `pack` raised struct.error (the worker thread dies
      there, still holding the buffer lock), `send` raised (the worker dies,
      the lock already released), `send` reported a short write, the
      received record was installed after the given number of attempts, or
      (in the corrected round only) nothing was received. */
  datatype RoundEnd = PackRaised | SendRaised | SendShort | Exchanged(attempts: nat) | NoReply

  /** The station's record after a round, and how the round ended. */
  datatype RoundResult = RoundResult(end: RoundEnd, data: StationState)

  /** The record the round installs, as written: `rcvData` is a fresh
      `PlcData()` that only a successful `unpack` overwrites, and the
      `dataLen = -1` in the exhausted branch leaves `rcvDataLen` at 0, so
      the `rcvDataLen < 0` test never holds and `rcvData` is installed
      even when nothing arrived. */
  function Installed(r: Reception): StationState {
    match r.frame
    case Some(f) => f
    case None => Zero()
  }

  /** One pass of the `while True` loop of `exchangeDataWithPLC`, as
      written; `sent` is what the `send` call did. */
  function Round(prev: StationState, sent: SendOutcome, o: seq<RecvOutcome>): (r: RoundResult)
    ensures !Packable(prev) ==> r == RoundResult(PackRaised, prev)
    ensures Packable(prev) && sent.SendFailed? ==> r == RoundResult(SendRaised, prev)
    ensures Packable(prev) && sent.Sent? && sent.len != FRAME_SIZE ==> r == RoundResult(SendShort, prev)
    ensures Packable(prev) && sent == Sent(FRAME_SIZE) ==>
      r.end == Exchanged(Receive(o).attempts) && 1 <= r.end.attempts <= MAX_ATTEMPTS
    ensures Packable(prev) ==> Packable(r.data)
  {
    if !Packable(prev) then RoundResult(PackRaised, prev)
    else if sent.SendFailed? then RoundResult(SendRaised, prev)
    else if sent.len != |Encode(prev)| then RoundResult(SendShort, prev)
    else
      var rec := Receive(o);
      RoundResult(Exchanged(rec.attempts), Installed(rec))
  }

  /** A round replaces the whole record by the first frame received. */
  lemma RoundInstallsFirstFrame(prev: StationState, o: seq<RecvOutcome>, j: nat)
    requires Packable(prev)
    requires j < MAX_ATTEMPTS && Attempt(OutcomeAt(o, j)).Some?
    requires forall i :: 0 <= i < j ==> Attempt(OutcomeAt(o, i)).None?
    ensures Round(prev, Sent(FRAME_SIZE), o) == RoundResult(Exchanged(j + 1), Attempt(OutcomeAt(o, j)).value)
  {
    FirstFrameWins(o, j);
  }

  /** As written, a round in which no frame arrives wipes the station's
      record: every input, output and flag reads 0 afterwards. */
  lemma ExhaustedRoundZeroes(prev: StationState, o: seq<RecvOutcome>)
    requires Packable(prev)
    requires forall i :: 0 <= i < MAX_ATTEMPTS ==> Attempt(OutcomeAt(o, i)).None?
    ensures Round(prev, Sent(FRAME_SIZE), o) == RoundResult(Exchanged(MAX_ATTEMPTS), Zero())
  {
    NoFrameExhausts(o);
  }

  /** A concrete case: a station whose first analog input reads 7 and that
      never answers has that input reset to 0. */
  lemma SilentStationLosesItsRecord()
    ensures var prev := Zero().(analogIn := Zero().analogIn[0 := 7]);
      Round(prev, Sent(FRAME_SIZE), []).data.analogIn[0] == 0 && prev.analogIn[0] == 7
  {
    var prev := Zero().(analogIn := Zero().analogIn[0 := 7]);
    assert Packable(prev);
    ExhaustedRoundZeroes(prev, []);
  }

  // ---------------------------------------------------------------------
  // The evidently intended round
  // ---------------------------------------------------------------------

  /** The round with an exhausted receive loop reported as the error the
      `rcvDataLen < 0` test is there for: the record is left as it was. A
      frame received at any attempt, the eleventh included, is installed. */
  function IntendedRound(prev: StationState, sent: SendOutcome, o: seq<RecvOutcome>): (r: RoundResult)
    ensures r.end.NoReply? <==> Packable(prev) && sent == Sent(FRAME_SIZE) && Receive(o).frame.None?
    ensures !r.end.Exchanged? ==> r.data == prev
    ensures r.end.Exchanged? ==> Receive(o).frame == Some(r.data)
  {
    if !Packable(prev) then RoundResult(PackRaised, prev)
    else if sent.SendFailed? then RoundResult(SendRaised, prev)
    else if sent.len != |Encode(prev)| then RoundResult(SendShort, prev)
    else
      var rec := Receive(o);
      match rec.frame
      case Some(f) => RoundResult(Exchanged(rec.attempts), f)
      case None => RoundResult(NoReply, prev)
  }

  /** With the intended branch, eleven failed attempts keep the record. */
  lemma ExhaustedIntendedRoundKeeps(prev: StationState, o: seq<RecvOutcome>)
    requires Packable(prev)
    requires forall i :: 0 <= i < MAX_ATTEMPTS ==> Attempt(OutcomeAt(o, i)).None?
    ensures IntendedRound(prev, Sent(FRAME_SIZE), o) == RoundResult(NoReply, prev)
  {
    NoFrameExhausts(o);
  }

  /** The two rounds differ only when nothing is received. */
  lemma IntendedAgreesOnReply(prev: StationState, sent: SendOutcome, o: seq<RecvOutcome>)
    requires !(Packable(prev) && sent == Sent(FRAME_SIZE)) || Receive(o).frame.Some?
    ensures IntendedRound(prev, sent, o) == Round(prev, sent, o)
  {
  }
}

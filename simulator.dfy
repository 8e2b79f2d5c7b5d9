/**
  The call simulator: the session state the `Simulator` component keeps beside the
  store, and the handlers that drive a call in text mode (typed input answered by the
  language model) or in voice mode (transcripts streamed by the voice service).
  Each timer callback of the text-mode handler is a method of its own; the clock,
  the random appointment id and `Date.now()` stamps are parameters.
 */
module Simulator {
  import opened Wrappers
  import opened Text
  import opened Calendar
  import opened AppStore
  import opened AgentLogic
  import opened BookingExtraction

  datatype Mode = TextMode | VoiceMode

  /** The fingerprint `role-transcript-count` of a voice message (count = messages so far). */
  datatype MessageKey = MessageKey(role: Role, transcript: string, count: nat)

  /** The fingerprint `name-service-time` of a booking committed in voice mode. */
  datatype BookingKey = BookingKey(name: string, service: Service, time: Instant)

  const Greeting := "Hello, thanks for calling Dr. Smith's clinic. May I have your full name please?"

  /** The simulator's own test for a booking confirmation in a reply. */
  predicate IsConfirmation(reply: string)
  {
    var lc := Lower(reply);
    Contains(lc, "booked") || Contains(lc, "confirmed") ||
    (Contains(lc, "perfect") && Contains(lc, "appointment"))
  }

  /** Every reply the classifier marks as a booking also triggers the simulator's test. */
  lemma BookActionIsConfirmation(input: string, history: seq<Message>, reply: Option<string>)
    ensures ProcessReply(input, history, reply).action == Some(Book) ==>
              IsConfirmation(ProcessReply(input, history, reply).text)
  {
  }

  /** A text lacking one of the characters of `p` does not contain `p`. */
  lemma MissingCharExcludes(s: string, p: string, k: nat)
    requires k < |p| && p[k] !in s
    ensures !Contains(s, p)
  {
  }

  /** Not conversely: a reply with "perfect" and "appointment" but none of the letters
      `b` and `d` (such as "Perfect, your appointment is set.") adds an appointment in the
      simulator, although the classifier assigns it no action (see `AgentLogic.ReplyAction`). */
  lemma ConfirmationBeyondBookAction(reply: string)
    requires Contains(Lower(reply), "perfect") && Contains(Lower(reply), "appointment")
    requires 'b' !in Lower(reply) && 'd' !in Lower(reply)
    ensures IsConfirmation(reply) && !ConfirmsBooking(Lower(reply))
  {
    MissingCharExcludes(Lower(reply), "booked", 0);
    MissingCharExcludes(Lower(reply), "confirmed", 8);
  }

  /** The appointment a complete booking becomes. */
  function AppointmentOf(id: string, b: Booking): (a: Appointment)
    requires Complete(b)
    ensures a.id == id && a.customerName == b.name && a.time == b.time
    ensures a.service == ServiceName(b.service.value) && a.status == Confirmed && a.notes == None
  {
    Appointment(id, b.name, ServiceName(b.service.value), b.time, Confirmed, None)
  }

  /** The appointments a booking adds: its appointment when it is complete, else none. */
  function Added(id: string, b: Option<Booking>): (r: seq<Appointment>)
    ensures |r| <= 1
    ensures b.Some? && Complete(b.value) ==> r == [AppointmentOf(id, b.value)]
    ensures b.None? ==> r == []
  {
    if b.Some? && Complete(b.value) then [AppointmentOf(id, b.value)] else []
  }

  function KeyOf(b: Booking): BookingKey
    requires Complete(b)
  {
    BookingKey(b.name, b.service.value, b.time)
  }

  /** How the transcript effect treats the newest voice message. */
  datatype Outcome = Skipped | Recorded(commit: Option<Booking>)

  /** The booking an outcome commits, if any. */
  function Committed(o: Outcome): Option<Booking>
  {
    if o.Recorded? then o.commit else None
  }

  /** The booking an assistant confirmation commits: the one found in the history, when it
      is complete and its fingerprint was not booked before in this call. */
  function VoiceCommit(booked: set<BookingKey>, history: seq<Message>, now: Clock): (c: Option<Booking>)
    ensures c.Some? <==> Complete(BookingOf(history, now)) && KeyOf(BookingOf(history, now)) !in booked
    ensures c.Some? ==> c.value == BookingOf(history, now)
  {
    var b := BookingOf(history, now);
    if Complete(b) && KeyOf(b) !in booked then Some(b) else None
  }

  /** The decision for the newest voice message: skipped when it has no role or no
      transcript or was seen before; otherwise recorded, and an assistant confirmation
      whose booking is complete and not yet booked in this call commits that booking. */
  function VoiceOutcome(processed: set<MessageKey>, booked: set<BookingKey>, history: seq<Message>,
                        role: Option<Role>, transcript: string, count: nat, now: Clock): (o: Outcome)
    ensures o.Skipped? <==>
              role.None? || transcript == "" || MessageKey(role.value, transcript, count) in processed
    ensures o.Recorded? && o.commit.Some? ==>
              role == Some(Assistant) && IsConfirmation(transcript) &&
              o.commit.value == BookingOf(history + [Message(Assistant, transcript)], now) &&
              Complete(o.commit.value) && KeyOf(o.commit.value) !in booked
    ensures role == Some(Assistant) && transcript != "" &&
            MessageKey(Assistant, transcript, count) !in processed && IsConfirmation(transcript) &&
            Complete(BookingOf(history + [Message(Assistant, transcript)], now)) &&
            KeyOf(BookingOf(history + [Message(Assistant, transcript)], now)) !in booked ==>
              o == Recorded(Some(BookingOf(history + [Message(Assistant, transcript)], now)))
  {
    if role.None? || transcript == "" || MessageKey(role.value, transcript, count) in processed then
      Skipped
    else if role == Some(Assistant) && IsConfirmation(transcript) then
      Recorded(VoiceCommit(booked, history + [Message(Assistant, transcript)], now))
    else
      Recorded(None)
  }

  /** Delivering the same message again, once its fingerprint is recorded, does nothing. */
  lemma RedeliveryIsSkipped(processed: set<MessageKey>, booked: set<BookingKey>, history: seq<Message>,
                            role: Role, transcript: string, count: nat, now: Clock)
    ensures VoiceOutcome(processed + {MessageKey(role, transcript, count)}, booked, history,
                         Some(role), transcript, count, now) == Skipped
  {
  }

  /** A booking committed once is never committed again in the same call, whatever the
      later messages and history are. */
  lemma CommitIsOncePerCall(processed: set<MessageKey>, booked: set<BookingKey>, history: seq<Message>,
                            role: Option<Role>, transcript: string, count: nat, now: Clock,
                            b: Booking)
    requires Complete(b) && KeyOf(b) in booked
    ensures VoiceOutcome(processed, booked, history, role, transcript, count, now) != Recorded(Some(b))
  {
  }

  /** The booking a text-mode reply adds: the one found in the new history, when the
      reply confirms and the booking is complete. */
  function TextBooking(history: seq<Message>, reply: string, now: Clock): (b: Option<Booking>)
    ensures b.Some? <==> IsConfirmation(reply) && Complete(BookingOf(history, now))
    ensures b.Some? ==> b.value == BookingOf(history, now) && Complete(b.value)
  {
    if IsConfirmation(reply) && Complete(BookingOf(history, now)) then Some(BookingOf(history, now))
    else None
  }

  /** The speaker the live transcript shows for a voice message. */
  function SpeakerOf(role: Role): Speaker
  {
    if role == User then UserSpeaker else AgentSpeaker
  }

  class Session {
    const store: Store
    var mode: Mode
    var agentState: AgentState
    var history: seq<Message>
    var processedIds: set<MessageKey>
    var bookedIds: set<BookingKey>
    /** The bookings committed in voice mode since the call started, in order. */
    ghost var commits: seq<BookingKey>

    /** The booked set is exactly the list of commits, and no booking is committed twice. */
    ghost predicate Valid()
      reads this
    {
      (forall i, j :: 0 <= i < j < |commits| ==> commits[i] != commits[j]) &&
      (forall k :: k in bookedIds <==> k in commits)
    }

    constructor (store: Store)
      ensures this.store == store && mode == TextMode && agentState == AgentState.Idle && history == []
      ensures processedIds == {} && bookedIds == {} && commits == []
      ensures Valid()
    {
      this.store := store;
      mode := TextMode;
      agentState := AgentState.Idle;
      history := [];
      processedIds := {};
      bookedIds := {};
      commits := [];
    }

    /** `handleStartCall`: the call is connected and both trackers are reset;
        the conversation history is kept. */
    method StartCall()
      requires Valid()
      modifies this, store
      ensures Valid()
      ensures store.callStatus == Connected
      ensures store.transcript == old(store.transcript) && store.appointments == old(store.appointments)
      ensures processedIds == {} && bookedIds == {} && commits == []
      ensures mode == old(mode) && agentState == old(agentState) && history == old(history)
    {
      store.SetCallStatus(Connected);
      bookedIds := {};
      processedIds := {};
      commits := [];
    }

    /** `handleEndCall`: the call ends, the agent goes idle, history and trackers are cleared. */
    method EndCall()
      requires Valid()
      modifies this, store
      ensures Valid()
      ensures store.callStatus == Ended
      ensures store.transcript == old(store.transcript) && store.appointments == old(store.appointments)
      ensures agentState == AgentState.Idle && history == []
      ensures processedIds == {} && bookedIds == {} && commits == []
      ensures mode == old(mode)
    {
      store.SetCallStatus(Ended);
      agentState := AgentState.Idle;
      history := [];
      bookedIds := {};
      processedIds := {};
      commits := [];
    }

    /** `switchMode`: a connected call is ended first. */
    method SwitchMode(newMode: Mode)
      requires Valid()
      modifies this, store
      ensures Valid()
      ensures mode == newMode
      ensures store.transcript == old(store.transcript) && store.appointments == old(store.appointments)
      ensures old(store.callStatus) == Connected ==>
                store.callStatus == Ended && agentState == AgentState.Idle && history == [] &&
                processedIds == {} && bookedIds == {} && commits == []
      ensures old(store.callStatus) != Connected ==>
                store.callStatus == old(store.callStatus) && agentState == old(agentState) &&
                history == old(history) && processedIds == old(processedIds) &&
                bookedIds == old(bookedIds) && commits == old(commits)
    {
      if store.callStatus == Connected {
        EndCall();
      }
      mode := newMode;
    }

    /** The greeting effect and its first timer: on a connected text call with an idle agent,
        the agent greets, and the greeting replaces the conversation history. */
    method Greet(stamp: int) returns (greeted: bool)
      requires Valid()
      modifies this, store
      ensures Valid()
      ensures greeted <==> old(store.callStatus) == Connected && old(agentState) == AgentState.Idle && mode == TextMode
      ensures greeted ==>
                agentState == Speaking && history == [Message(Assistant, Greeting)] &&
                store.transcript == old(store.transcript) + [TranscriptMessage(AgentSpeaker, Greeting, stamp)]
      ensures !greeted ==>
                agentState == old(agentState) && history == old(history) &&
                store.transcript == old(store.transcript)
      ensures store.callStatus == old(store.callStatus) && store.appointments == old(store.appointments)
      ensures mode == old(mode) && processedIds == old(processedIds) && bookedIds == old(bookedIds)
      ensures commits == old(commits)
    {
      greeted := store.callStatus == Connected && agentState == AgentState.Idle && mode == TextMode;
      if greeted {
        agentState := Speaking;
        store.AddTranscriptMessage(TranscriptMessage(AgentSpeaker, Greeting, stamp));
        history := [Message(Assistant, Greeting)];
      }
    }

    /** A speaking timer ran out: the agent listens again. */
    method GreetingDelivered()
      modifies this
      ensures agentState == Listening
      ensures mode == old(mode) && history == old(history) && processedIds == old(processedIds)
      ensures bookedIds == old(bookedIds) && commits == old(commits)
    {
      agentState := Listening;
    }

    /** The speaking-state effect: in an active voice session the agent mirrors the service. */
    method SyncVoiceState(sessionActive: bool, isSpeaking: bool)
      modifies this
      ensures mode == VoiceMode && sessionActive ==>
                agentState == (if isSpeaking then Speaking else Listening)
      ensures !(mode == VoiceMode && sessionActive) ==> agentState == old(agentState)
      ensures mode == old(mode) && history == old(history) && processedIds == old(processedIds)
      ensures bookedIds == old(bookedIds) && commits == old(commits)
    {
      if mode == VoiceMode && sessionActive {
        agentState := if isSpeaking then Speaking else Listening;
      }
    }

    /** `handleSendInput` up to its timer: blank input is ignored; otherwise the input goes
        to the transcript and the history and the agent starts processing. `captured` is the
        history as the pending timer sees it: the one before this input. */
    method SendInput(input: string, stamp: int) returns (sent: bool, captured: seq<Message>)
      requires Valid()
      modifies this, store
      ensures Valid()
      ensures sent <==> Trim(input) != ""
      ensures captured == old(history)
      ensures sent ==>
                agentState == Processing && history == old(history) + [Message(User, input)] &&
                store.transcript == old(store.transcript) + [TranscriptMessage(UserSpeaker, input, stamp)]
      ensures !sent ==>
                agentState == old(agentState) && history == old(history) &&
                store.transcript == old(store.transcript)
      ensures store.callStatus == old(store.callStatus) && store.appointments == old(store.appointments)
      ensures mode == old(mode) && processedIds == old(processedIds) && bookedIds == old(bookedIds)
      ensures commits == old(commits)
    {
      captured := history;
      sent := Trim(input) != "";
      if sent {
        store.AddTranscriptMessage(TranscriptMessage(UserSpeaker, input, stamp));
        agentState := Processing;
        history := history + [Message(User, input)];
      }
    }

    /** The processing timer of `handleSendInput`: the reply (or the fallback when the model
        fails) is spoken and recorded, the history becomes the captured one plus this
        exchange, and a confirming reply adds the booking found in it when it is complete,
        with no duplicate check. */
    method DeliverReply(captured: seq<Message>, input: string, reply: Option<string>,
                        now: Clock, stamp: int, newId: string)
      returns (response: AgentResponse, booking: Option<Booking>)
      requires Valid()
      modifies this, store
      ensures Valid()
      ensures response == ProcessReply(input, captured, reply)
      ensures agentState == Speaking
      ensures history == captured + [Message(User, input), Message(Assistant, response.text)]
      ensures store.transcript == old(store.transcript) + [TranscriptMessage(AgentSpeaker, response.text, stamp)]
      ensures booking == TextBooking(history, response.text, now)
      ensures store.appointments == old(store.appointments) + Added(newId, booking)
      ensures store.callStatus == old(store.callStatus)
      ensures mode == old(mode) && processedIds == old(processedIds) && bookedIds == old(bookedIds)
      ensures commits == old(commits)
    {
      response := ProcessReply(input, captured, reply);
      agentState := Speaking;
      store.AddTranscriptMessage(TranscriptMessage(AgentSpeaker, response.text, stamp));
      var newHistory := captured + [Message(User, input), Message(Assistant, response.text)];
      history := newHistory;
      booking := BookIfConfirmed(newHistory, response.text, now, newId);
    }

    /** The confirmation check of the text-mode handler. */
    method BookIfConfirmed(newHistory: seq<Message>, text: string, now: Clock, newId: string)
      returns (booking: Option<Booking>)
      modifies store
      ensures booking == TextBooking(newHistory, text, now)
      ensures store.appointments == old(store.appointments) + Added(newId, booking)
      ensures store.callStatus == old(store.callStatus) && store.transcript == old(store.transcript)
    {
      booking := None;
      if IsConfirmation(text) {
        var b := ExtractBookingFromHistory(newHistory, now);
        if Complete(b) {
          store.AddAppointment(AppointmentOf(newId, b));
          booking := Some(b);
        }
      }
    }

    /** The speaking timer of `handleSendInput`: the agent takes the reply's next state,
        and a reply saying "goodbye" ends the call. */
    method FinishReply(response: AgentResponse)
      modifies this, store
      ensures agentState == response.newState.GetOr(Listening)
      ensures Contains(Lower(response.text), "goodbye") ==> store.callStatus == Ended
      ensures !Contains(Lower(response.text), "goodbye") ==> store.callStatus == old(store.callStatus)
      ensures store.transcript == old(store.transcript) && store.appointments == old(store.appointments)
      ensures mode == old(mode) && history == old(history) && processedIds == old(processedIds)
      ensures bookedIds == old(bookedIds) && commits == old(commits)
    {
      agentState := response.newState.GetOr(Listening);
      if Contains(Lower(response.text), "goodbye") {
        store.SetCallStatus(Ended);
      }
    }

    /** The transcript effect on the newest of `count` voice messages: a message with a role
        and a transcript that was not seen before is recorded in the transcript and, from
        the user or the assistant, in the history; an assistant confirmation commits the
        booking found in the history unless that booking was already committed. */
    method OnVoiceMessage(role: Option<Role>, transcript: string, count: nat,
                          now: Clock, stamp: int, newId: string)
      returns (outcome: Outcome)
      requires Valid()
      modifies this, store
      ensures Valid()
      ensures outcome == VoiceOutcome(old(processedIds), old(bookedIds), old(history),
                                      role, transcript, count, now)
      ensures outcome.Skipped? ==>
                processedIds == old(processedIds) && history == old(history) &&
                store.transcript == old(store.transcript)
      ensures outcome.Recorded? ==>
                processedIds == old(processedIds) + {MessageKey(role.value, transcript, count)} &&
                store.transcript == old(store.transcript) +
                                    [TranscriptMessage(SpeakerOf(role.value), transcript, stamp)] &&
                history == (if role.value == System then old(history)
                            else old(history) + [Message(role.value, transcript)])
      ensures store.appointments == old(store.appointments) + Added(newId, Committed(outcome))
      ensures Committed(outcome).Some? ==>
                var b := Committed(outcome).value;
                Complete(b) && bookedIds == old(bookedIds) + {KeyOf(b)} && commits == old(commits) + [KeyOf(b)]
      ensures Committed(outcome).None? ==> bookedIds == old(bookedIds) && commits == old(commits)
      ensures store.callStatus == old(store.callStatus)
      ensures mode == old(mode) && agentState == old(agentState)
    {
      outcome := Skipped;
      if role.None? || transcript == "" {
        return;
      }
      var messageId := MessageKey(role.value, transcript, count);
      if messageId in processedIds {
        return;
      }
      processedIds := processedIds + {messageId};
      store.AddTranscriptMessage(TranscriptMessage(SpeakerOf(role.value), transcript, stamp));
      outcome := Recorded(None);
      if role.value == User || role.value == Assistant {
        history := history + [Message(role.value, transcript)];
        if role.value == Assistant && IsConfirmation(transcript) {
          var commit := CommitVoiceBooking(history, now, newId);
          outcome := Recorded(commit);
        }
      }
    }

    /** The booking commit of the transcript effect: the booking found in the history is
        added and its fingerprint recorded, unless it is incomplete or already booked. */
    method CommitVoiceBooking(newHistory: seq<Message>, now: Clock, newId: string)
      returns (commit: Option<Booking>)
      requires Valid()
      modifies this, store
      ensures Valid()
      ensures commit == VoiceCommit(old(bookedIds), newHistory, now)
      ensures store.appointments == old(store.appointments) + Added(newId, commit)
      ensures commit.Some? ==>
                bookedIds == old(bookedIds) + {KeyOf(commit.value)} &&
                commits == old(commits) + [KeyOf(commit.value)]
      ensures commit.None? ==> bookedIds == old(bookedIds) && commits == old(commits)
      ensures store.callStatus == old(store.callStatus) && store.transcript == old(store.transcript)
      ensures mode == old(mode) && agentState == old(agentState) && history == old(history)
      ensures processedIds == old(processedIds)
    {
      commit := None;
      var b := ExtractBookingFromHistory(newHistory, now);
      if Complete(b) && KeyOf(b) !in bookedIds {
        store.AddAppointment(AppointmentOf(newId, b));
        RecordBooked(KeyOf(b));
        commit := Some(b);
      }
    }

    /** `bookedIdsRef.current.add(bookingId)`: a fingerprint not booked before is recorded. */
    method RecordBooked(key: BookingKey)
      requires Valid() && key !in bookedIds
      modifies this
      ensures Valid()
      ensures bookedIds == old(bookedIds) + {key} && commits == old(commits) + [key]
      ensures mode == old(mode) && agentState == old(agentState) && history == old(history)
      ensures processedIds == old(processedIds)
    {
      bookedIds := bookedIds + {key};
      commits := commits + [key];
    }
  }

  /** The transcript effect run twice on the same message list (same count) records the message
      once and commits at most once. A voice event the service sends again arrives with the
      next count, so it is recorded again; only `CommitIsOncePerCall` keeps it from booking twice. */
  method DeliverTwice(session: Session, role: Role, transcript: string, count: nat,
                      now: Clock, stamp: int, newId: string)
    returns (first: Outcome, second: Outcome)
    requires session.Valid()
    modifies session, session.store
    ensures session.Valid()
    ensures second == Skipped
    ensures transcript != "" && MessageKey(role, transcript, count) !in old(session.processedIds) ==>
              first.Recorded?
    ensures first == VoiceOutcome(old(session.processedIds), old(session.bookedIds), old(session.history),
                                  Some(role), transcript, count, now)
    ensures session.store.appointments == old(session.store.appointments) + Added(newId, Committed(first))
    ensures |session.store.appointments| <= |old(session.store.appointments)| + 1
    ensures Committed(first).Some? ==>
              |session.store.appointments| == |old(session.store.appointments)| + 1
  {
    first := session.OnVoiceMessage(Some(role), transcript, count, now, stamp, newId);
    second := session.OnVoiceMessage(Some(role), transcript, count, now, stamp, newId);
  }
}

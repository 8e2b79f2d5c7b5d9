/**
  The agent's text logic: the keyword router used without a language model, the
  classification of a language-model reply into an action and a next state, and
  the simple slot extractor that reply classification calls.
 */
module AgentLogic {
  import opened Wrappers
  import opened Text

  datatype AgentState = Idle | Listening | Processing | Speaking

  datatype Action = Book | Reschedule | Cancel | CheckAvailability

  datatype Role = User | Assistant | System

  /** One turn of the conversation history. */
  datatype Message = Message(role: Role, content: string)

  datatype Service = Physiotherapy | Massage | GeneralConsultation

  /** The loosely typed `data` of a response: the slots that were found. */
  datatype BookingData = BookingData(service: Option<string>, customerName: Option<string>)

  datatype AgentResponse = AgentResponse(
    text: string,
    newState: Option<AgentState>,
    action: Option<Action>,
    data: Option<BookingData>)

  const NoData := BookingData(None, None)

  function ServiceName(s: Service): string
  {
    match s
    case Physiotherapy => "Physiotherapy"
    case Massage => "Massage"
    case GeneralConsultation => "General Consultation"
  }

  /** `history.map(m => m.content)`. */
  function Contents(history: seq<Message>): (r: seq<string>)
    ensures |r| == |history|
    ensures forall i :: 0 <= i < |history| ==> r[i] == history[i].content
  {
    seq(|history|, i requires 0 <= i < |history| => history[i].content)
  }

  /** The whole conversation, every turn of either party, joined by spaces and lower-cased. */
  function AllText(history: seq<Message>): string
  {
    Lower(Join(Contents(history), " "))
  }

  /** The service a text asks for: physiotherapy before massage before consultation. */
  function ClassifyService(text: string): Option<Service>
  {
    if Contains(text, "physiotherapy") || Contains(text, "physio") then Some(Physiotherapy)
    else if Contains(text, "massage") then Some(Massage)
    else if Contains(text, "consultation") then Some(GeneralConsultation)
    else None
  }

  lemma PhysiotherapyMentionsPhysio(text: string)
    ensures Contains(text, "physiotherapy") ==> Contains(text, "physio")
  {
    if Contains(text, "physiotherapy") {
      assert OccursAt("physiotherapy", "physio", 0);
      ContainsTrans(text, "physiotherapy", "physio");
    }
  }

  /** The priority of the service keywords, both directions of each case. */
  lemma ClassifyServicePriority(text: string)
    ensures ClassifyService(text) == Some(Physiotherapy) <==> Contains(text, "physio")
    ensures ClassifyService(text) == Some(Massage) <==>
              !Contains(text, "physio") && Contains(text, "massage")
    ensures ClassifyService(text) == Some(GeneralConsultation) <==>
              !Contains(text, "physio") && !Contains(text, "massage") && Contains(text, "consultation")
    ensures ClassifyService(text) == None <==>
              !Contains(text, "physio") && !Contains(text, "massage") && !Contains(text, "consultation")
  {
    PhysiotherapyMentionsPhysio(text);
  }

  // ---------------------------------------------------------------------------
  // The keyword router (`processUserInput`)
  // ---------------------------------------------------------------------------

  const OfferText := "I can help with that. What service are you looking to book? We offer Physiotherapy, Massage, and General Consultation."
  const AvailabilityText := "Let me check availability... Yes, that slot is open. Can I get your full name to lock that in?"
  const BookedText := "Perfect. I have you booked for [Service] on [Time]. You'll receive a confirmation SMS shortly. Is there anything else?"
  const GoodbyeText := "You're welcome! Have a great day. Goodbye."
  const RepeatText := "I didn't quite catch that. Could you repeat it?"

  function ServiceText(service: string): string
  {
    "Great, a " + service + ". What day and time works best for you?"
  }

  predicate AsksToBook(lc: string)
  {
    Contains(lc, "book") || Contains(lc, "appointment") || Contains(lc, "schedule")
  }

  predicate NamesService(lc: string)
  {
    Contains(lc, "physio") || Contains(lc, "massage") || Contains(lc, "consultation")
  }

  predicate NamesTime(lc: string)
  {
    Contains(lc, "monday") || Contains(lc, "tuesday") || Contains(lc, "morning") ||
    Contains(lc, "pm") || Contains(lc, "am")
  }

  predicate LooksLikeName(lc: string)
  {
    |lc| > 3 && !Contains(lc, "thanks")
  }

  predicate SaysGoodbye(lc: string)
  {
    Contains(lc, "no") || Contains(lc, "thanks") || Contains(lc, "bye")
  }

  /** The first branch whose keywords the lower-cased input contains answers. */
  function ProcessUserInput(input: string): AgentResponse
  {
    var lc := Lower(input);
    if AsksToBook(lc) then
      AgentResponse(OfferText, Some(Listening), None, None)
    else if NamesService(lc) then
      var service :=
        if Contains(lc, "physio") then "Physiotherapy"
        else if Contains(lc, "massage") then "Massage"
        else "General Consultation";
      AgentResponse(ServiceText(service), Some(Listening), None, Some(BookingData(Some(service), None)))
    else if NamesTime(lc) then
      AgentResponse(AvailabilityText, Some(Listening), Some(CheckAvailability), None)
    else if LooksLikeName(lc) then
      AgentResponse(BookedText, Some(Listening), Some(Book), Some(BookingData(None, Some(input))))
    else if SaysGoodbye(lc) then
      AgentResponse(GoodbyeText, Some(Idle), None, None)
    else
      AgentResponse(RepeatText, Some(Listening), None, None)
  }

  /** A booking request wins over every later branch, whatever else the input says. */
  lemma BookingRequestWins(input: string)
    requires AsksToBook(Lower(input))
    ensures ProcessUserInput(input) == AgentResponse(OfferText, Some(Listening), None, None)
  {
  }

  /** The service branch picks the service by the classifier's priority and echoes it. */
  lemma ServiceBranchFollowsPriority(input: string)
    requires !AsksToBook(Lower(input)) && NamesService(Lower(input))
    ensures var r := ProcessUserInput(input);
            var s := ClassifyService(Lower(input));
            s.Some? &&
            r.data == Some(BookingData(Some(ServiceName(s.value)), None)) &&
            r.text == ServiceText(ServiceName(s.value)) &&
            r.action == None && r.newState == Some(Listening)
  {
    ClassifyServicePriority(Lower(input));
  }

  /** Any input of more than three characters that reaches the name branch is booked,
      the raw input becoming the customer's name. */
  lemma LongInputIsBookedAsName(input: string)
    requires var lc := Lower(input);
             !AsksToBook(lc) && !NamesService(lc) && !NamesTime(lc)
    requires |input| > 3 && !Contains(Lower(input), "thanks")
    ensures ProcessUserInput(input).action == Some(Book)
    ensures ProcessUserInput(input).data == Some(BookingData(None, Some(input)))
  {
  }

  /** Only the goodbye answer ends the conversation; every other one keeps listening. */
  lemma IdleOnlyOnGoodbye(input: string)
    ensures var r := ProcessUserInput(input);
            r.newState == Some(Idle) || r.newState == Some(Listening)
    ensures var r := ProcessUserInput(input);
            r.newState == Some(Idle) <==> r.text == GoodbyeText
    ensures ProcessUserInput(input).newState == Some(Idle) ==>
              !LooksLikeName(Lower(input)) && SaysGoodbye(Lower(input))
  {
    var lc := Lower(input);
    assert |GoodbyeText| != |OfferText| && |GoodbyeText| != |AvailabilityText|;
    assert |GoodbyeText| != |BookedText| && |GoodbyeText| != |RepeatText|;
    if NamesService(lc) {
      var service :=
        if Contains(lc, "physio") then "Physiotherapy"
        else if Contains(lc, "massage") then "Massage"
        else "General Consultation";
      assert ServiceText(service)[0] == 'G' && GoodbyeText[0] == 'Y';
    }
  }

  // ---------------------------------------------------------------------------
  // The slot extractor used by reply classification (`extractBookingData`)
  // ---------------------------------------------------------------------------

  /** `history.filter(m => m.role === 'user')`. */
  function UserTurns(history: seq<Message>): (r: seq<Message>)
    ensures |r| <= |history|
    ensures forall k :: 0 <= k < |r| ==> r[k].role == User && r[k] in history
  {
    if history == [] then []
    else if history[0].role == User then [history[0]] + UserTurns(history[1..])
    else UserTurns(history[1..])
  }

  /** The filter keeps a single turn exactly when it is a user turn. */
  lemma UserTurnsOfOne(m: Message)
    ensures UserTurns([m]) == if m.role == User then [m] else []
  {
    assert [m][1..] == [];
  }

  /** The filter distributes over concatenation; with `UserTurnsOfOne` this fixes it
      completely: every user turn is kept, in order, and nothing else. */
  lemma {:induction false} UserTurnsAppend(a: seq<Message>, b: seq<Message>)
    ensures UserTurns(a + b) == UserTurns(a) + UserTurns(b)
  {
    if a != [] {
      assert (a + b)[1..] == a[1..] + b;
      UserTurnsAppend(a[1..], b);
    } else {
      assert a + b == b;
    }
  }

  /** `s.slice(-n)`: the last `n` elements, or all of them. */
  function LastN<T>(s: seq<T>, n: nat): (r: seq<T>)
    ensures |r| <= n && |r| <= |s|
    ensures r == s[|s| - |r|..]
    ensures |s| >= n ==> |r| == n
    ensures |s| <= n ==> r == s
  {
    if |s| <= n then s else s[|s| - n..]
  }

  /** A user message short enough to be a name and not about booking. */
  predicate NameCandidate(m: Message)
  {
    |Split(m.content, ' ')| <= 3 && |m.content| > 2 && !Contains(Lower(m.content), "book")
  }

  /** `messages.find(NameCandidate)?.content`. */
  function FirstCandidate(messages: seq<Message>): (r: Option<string>)
    ensures r.None? <==> forall k :: 0 <= k < |messages| ==> !NameCandidate(messages[k])
    ensures r.Some? ==>
              exists k :: 0 <= k < |messages| && NameCandidate(messages[k]) &&
                messages[k].content == r.value &&
                forall j :: 0 <= j < k ==> !NameCandidate(messages[j])
  {
    if messages == [] then None
    else if NameCandidate(messages[0]) then Some(messages[0].content)
    else
      var r := FirstCandidate(messages[1..]);
      assert forall k :: 1 <= k < |messages| ==> messages[k] == messages[1..][k - 1];
      r
  }

  /** The user turns the name is looked for in: the last three. */
  function RecentUserTurns(history: seq<Message>): seq<Message>
  {
    LastN(UserTurns(history), 3)
  }

  /** The last three user turns of the history (all of them when fewer), in order, each
      a user turn of the history. */
  lemma RecentAreUserTurns(history: seq<Message>)
    ensures var recent := RecentUserTurns(history);
            var users := UserTurns(history);
            |recent| == (if |users| < 3 then |users| else 3) && recent == users[|users| - |recent|..] &&
            forall k :: 0 <= k < |recent| ==> recent[k].role == User && recent[k] in history
  {
    var recent := RecentUserTurns(history);
    var users := UserTurns(history);
    var n := |users| - |recent|;
    assert recent == users[n..];
    forall k | 0 <= k < |recent| ensures recent[k].role == User && recent[k] in history {
      assert recent[k] == users[n + k];
    }
  }

  function ServiceOfText(text: string): Option<string>
  {
    match ClassifyService(text)
    case Some(s) => Some(ServiceName(s))
    case None => None
  }

  /** The slots found in the history; the current input is not consulted. */
  function ExtractBookingData(input: string, history: seq<Message>): BookingData
  {
    BookingData(ServiceOfText(AllText(history)), FirstCandidate(RecentUserTurns(history)))
  }

  /** `name` is what a search of `recent`, user turns of `history`, finds: nothing exactly
      when no turn is name-like, otherwise the content of the first name-like turn, which is
      short, over two characters and not about booking. */
  predicate FoundAmongUserTurns(name: Option<string>, recent: seq<Message>, history: seq<Message>)
  {
    (name.None? <==> forall k :: 0 <= k < |recent| ==> !NameCandidate(recent[k])) &&
    (name.Some? ==>
       exists k :: 0 <= k < |recent| && recent[k].role == User &&
         recent[k] in history && recent[k].content == name.value &&
         !Contains(Lower(name.value), "book") && |name.value| > 2 &&
         |Split(name.value, ' ')| <= 3 &&
         forall j :: 0 <= j < k ==> !NameCandidate(recent[j]))
  }

  /** The first name-like turn among user turns of a history is one of them, verbatim. */
  lemma FirstCandidateIsUserTurn(recent: seq<Message>, history: seq<Message>)
    requires forall k :: 0 <= k < |recent| ==> recent[k].role == User && recent[k] in history
    ensures FoundAmongUserTurns(FirstCandidate(recent), recent, history)
  {
    var name := FirstCandidate(recent);
    if name.Some? {
      var k :| 0 <= k < |recent| && NameCandidate(recent[k]) && recent[k].content == name.value &&
        forall j :: 0 <= j < k ==> !NameCandidate(recent[j]);
      assert recent[k].role == User && recent[k] in history;
    }
  }

  /** The name found is, verbatim, the first name-like one of the last three user turns,
      with no earlier recent turn so. */
  lemma ExtractedNameIsRecentUserTurn(input: string, history: seq<Message>)
    ensures |RecentUserTurns(history)| <= 3
    ensures FoundAmongUserTurns(ExtractBookingData(input, history).customerName,
                                RecentUserTurns(history), history)
  {
    var recent := RecentUserTurns(history);
    RecentAreUserTurns(history);
    assert ExtractBookingData(input, history).customerName == FirstCandidate(recent);
    FirstCandidateIsUserTurn(recent, history);
  }

  /** The input argument never changes what is extracted. */
  lemma ExtractionIgnoresInput(a: string, b: string, history: seq<Message>)
    ensures ExtractBookingData(a, history) == ExtractBookingData(b, history)
  {
  }

  // ---------------------------------------------------------------------------
  // Classification of a language-model reply (`processUserInputWithLLM`)
  // ---------------------------------------------------------------------------

  const TroubleText := "I'm having trouble processing that. Could you please repeat?"

  predicate ConfirmsBooking(lc: string)
  {
    Contains(lc, "booked") || Contains(lc, "confirmed")
  }

  predicate OffersAvailabilityCheck(lc: string)
  {
    Contains(lc, "check") && Contains(lc, "availability")
  }

  predicate EndsConversation(lc: string)
  {
    Contains(lc, "goodbye") || Contains(lc, "have a great day") || Contains(lc, "bye")
  }

  /** The response built from a reply `text` to `input` given the earlier `history`. */
  function ClassifyReply(input: string, history: seq<Message>, text: string): AgentResponse
  {
    var lc := Lower(text);
    var action :=
      if ConfirmsBooking(lc) then Some(Book)
      else if OffersAvailabilityCheck(lc) then Some(CheckAvailability)
      else None;
    var data := if action == Some(Book) then ExtractBookingData(input, history) else NoData;
    AgentResponse(text, Some(if EndsConversation(lc) then Idle else Listening), action, Some(data))
  }

  /** The whole reply path: `None` stands for a failed request or a reply without text. */
  function ProcessReply(input: string, history: seq<Message>, reply: Option<string>): AgentResponse
  {
    match reply
    case None => AgentResponse(TroubleText, Some(Listening), None, None)
    case Some(text) => ClassifyReply(input, history, text)
  }

  /** The reply's action: booking before availability, both directions. */
  lemma ReplyAction(input: string, history: seq<Message>, text: string)
    ensures var r := ClassifyReply(input, history, text);
            var lc := Lower(text);
            r.text == text &&
            (r.action == Some(Book) <==> ConfirmsBooking(lc)) &&
            (r.action == Some(CheckAvailability) <==> !ConfirmsBooking(lc) && OffersAvailabilityCheck(lc)) &&
            (r.action == None <==> !ConfirmsBooking(lc) && !OffersAvailabilityCheck(lc)) &&
            (r.action == Some(Book) ==> r.data == Some(ExtractBookingData(input, history))) &&
            (r.action != Some(Book) ==> r.data == Some(NoData))
  {
  }

  /** "goodbye" is subsumed by "bye": the reply ends the call exactly when it says "bye"
      or "have a great day". */
  lemma ReplyEndsOnBye(input: string, history: seq<Message>, text: string)
    ensures var r := ClassifyReply(input, history, text);
            var lc := Lower(text);
            (r.newState == Some(Idle) <==> Contains(lc, "bye") || Contains(lc, "have a great day")) &&
            (r.newState != Some(Idle) ==> r.newState == Some(Listening))
  {
    var lc := Lower(text);
    if Contains(lc, "goodbye") {
      assert OccursAt("goodbye", "bye", 4);
      ContainsTrans(lc, "goodbye", "bye");
    }
  }

  /** A failed request yields the fixed apology, keeps listening and carries no action. */
  lemma FailedReplyFallsBack(input: string, history: seq<Message>)
    ensures var r := ProcessReply(input, history, None);
            r.text == TroubleText && r.newState == Some(Listening) && r.action == None && r.data == None
  {
  }
}

/**
  The application store: the call status, the live transcript and the list of
  appointments, each replaced wholesale by its updater.
 */
module AppStore {
  import opened Wrappers
  import opened Calendar

  datatype CallStatus = Idle | Ringing | Connected | Ended

  datatype Status = Confirmed | Pending | Cancelled

  datatype Appointment = Appointment(
    id: string,
    customerName: string,
    service: string,
    time: Instant,
    status: Status,
    notes: Option<string>)

  /** A `Partial<Appointment>`: a present field overrides, an absent one keeps the old value.
      `notes` may be present with the value `undefined`, hence the nested option. */
  datatype AppointmentUpdate = AppointmentUpdate(
    id: Option<string>,
    customerName: Option<string>,
    service: Option<string>,
    time: Option<Instant>,
    status: Option<Status>,
    notes: Option<Option<string>>)

  datatype Speaker = AgentSpeaker | UserSpeaker | SystemSpeaker

  datatype TranscriptMessage = TranscriptMessage(role: Speaker, text: string, timestamp: int)

  const NoChange := AppointmentUpdate(None, None, None, None, None, None)

  /** The two demonstration appointments the store starts with, on 2023-10-27. */
  const SeedAppointments := [
    Appointment("1", "Alice Johnson", "Physiotherapy", Instant(19657, 10, 0), Confirmed, None),
    Appointment("2", "Bob Smith", "Massage", Instant(19657, 14, 0), Confirmed, None)
  ]

  /** `{ ...appt, ...updates }`. */
  function Merge(a: Appointment, u: AppointmentUpdate): Appointment
  {
    Appointment(
      u.id.GetOr(a.id),
      u.customerName.GetOr(a.customerName),
      u.service.GetOr(a.service),
      u.time.GetOr(a.time),
      u.status.GetOr(a.status),
      u.notes.GetOr(a.notes))
  }

  /** An update with no fields leaves an appointment as it was. */
  lemma MergeNoChange(a: Appointment)
    ensures Merge(a, NoChange) == a
  {
  }

  /** Merging the same update twice is merging it once. */
  lemma MergeIdempotent(a: Appointment, u: AppointmentUpdate)
    ensures Merge(Merge(a, u), u) == Merge(a, u)
  {
  }

  /** `appointments.map(appt => appt.id === id ? { ...appt, ...updates } : appt)`. */
  function UpdateById(appts: seq<Appointment>, id: string, u: AppointmentUpdate): (r: seq<Appointment>)
    ensures |r| == |appts|
    ensures forall i :: 0 <= i < |appts| && appts[i].id != id ==> r[i] == appts[i]
    ensures forall i :: 0 <= i < |appts| && appts[i].id == id ==> r[i] == Merge(appts[i], u)
  {
    if appts == [] then []
    else [if appts[0].id == id then Merge(appts[0], u) else appts[0]] + UpdateById(appts[1..], id, u)
  }

  /** An update for an id no appointment carries changes nothing. */
  lemma {:induction false} UpdateAbsentId(appts: seq<Appointment>, id: string, u: AppointmentUpdate)
    requires forall i :: 0 <= i < |appts| ==> appts[i].id != id
    ensures UpdateById(appts, id, u) == appts
  {
    if appts != [] {
      UpdateAbsentId(appts[1..], id, u);
    }
  }

  /** Applying the same update twice is applying it once, even when it changes the id. */
  lemma UpdateIdempotent(appts: seq<Appointment>, id: string, u: AppointmentUpdate)
    ensures UpdateById(UpdateById(appts, id, u), id, u) == UpdateById(appts, id, u)
  {
    var once := UpdateById(appts, id, u);
    var twice := UpdateById(once, id, u);
    forall i | 0 <= i < |appts|
      ensures twice[i] == once[i]
    {
      if appts[i].id == id {
        MergeIdempotent(appts[i], u);
      }
    }
  }

  class Store {
    var callStatus: CallStatus
    var transcript: seq<TranscriptMessage>
    var appointments: seq<Appointment>

    constructor ()
      ensures callStatus == Idle && transcript == [] && appointments == SeedAppointments
    {
      callStatus := Idle;
      transcript := [];
      appointments := SeedAppointments;
    }

    method SetCallStatus(status: CallStatus)
      modifies this
      ensures callStatus == status
      ensures transcript == old(transcript) && appointments == old(appointments)
    {
      callStatus := status;
    }

    method AddTranscriptMessage(message: TranscriptMessage)
      modifies this
      ensures transcript == old(transcript) + [message]
      ensures callStatus == old(callStatus) && appointments == old(appointments)
    {
      transcript := transcript + [message];
    }

    method ClearTranscript()
      modifies this
      ensures transcript == []
      ensures callStatus == old(callStatus) && appointments == old(appointments)
    {
      transcript := [];
    }

    /** Appends without looking at the id: two appointments may share one. */
    method AddAppointment(appointment: Appointment)
      modifies this
      ensures appointments == old(appointments) + [appointment]
      ensures callStatus == old(callStatus) && transcript == old(transcript)
    {
      appointments := appointments + [appointment];
    }

    method UpdateAppointment(id: string, updates: AppointmentUpdate)
      modifies this
      ensures appointments == UpdateById(old(appointments), id, updates)
      ensures |appointments| == |old(appointments)|
      ensures forall i :: 0 <= i < |appointments| && old(appointments)[i].id != id ==>
                appointments[i] == old(appointments)[i]
      ensures callStatus == old(callStatus) && transcript == old(transcript)
    {
      appointments := UpdateById(appointments, id, updates);
    }
  }
}

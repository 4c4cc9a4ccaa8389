/** The Kafka Connect struct a Zyston event is projected onto, and the projection from JSON. */
module ZystonEventSchema {
  import opened Wrappers
  import opened Faults
  import Json

  const EventId := "event_id"
  const Timestamp := "timestamp"
  const Payload := "payload"
  const CommandId := "command_id"
  const Comment := "comment"

  /** One field of a Connect struct schema; every field here is a string. */
  datatype Field = Field(name: string, optional: bool)

  /** The `com.zyston.Event` schema, fields in declaration order. */
  const Schema: seq<Field> := [
    Field(EventId, false),
    Field(Timestamp, false),
    Field(CommandId, false),
    Field(Comment, true),
    Field(Payload, false)
  ]

  /** The fields `toStruct` reads from the JSON event with `get(name).asText()`, in the order it reads them. */
  const TextFields: seq<string> := [EventId, Timestamp, CommandId, Comment]

  /** A populated `com.zyston.Event` struct. */
  datatype Event = Event(eventId: string, timestamp: string, commandId: string, comment: string, payload: string)

  /** `struct.get(name)`: the value of a schema field; `None` for a name the schema does not declare
      (Kafka throws DataException there). */
  function Get(e: Event, name: string): Option<string>
  {
    if name == EventId then Some(e.eventId)
    else if name == Timestamp then Some(e.timestamp)
    else if name == CommandId then Some(e.commandId)
    else if name == Comment then Some(e.comment)
    else if name == Payload then Some(e.payload)
    else None
  }

  /** Exactly the five declared names are readable from a struct. */
  lemma GetDefinedExactlyOnSchema(e: Event, name: string)
    ensures Get(e, name).Some? <==> exists i :: 0 <= i < |Schema| && Schema[i].name == name
  {
    if Get(e, name).Some? {
      var i := if name == EventId then 0 else if name == Timestamp then 1
        else if name == CommandId then 2 else if name == Comment then 3 else 4;
      assert Schema[i].name == name;
    }
  }

  /** Five fields with distinct names, of which only `comment` is optional. */
  lemma SchemaShape()
    ensures |Schema| == 5
    ensures forall i, j :: 0 <= i < j < |Schema| ==> Schema[i].name != Schema[j].name
    ensures forall i :: 0 <= i < |Schema| ==> (Schema[i].optional <==> Schema[i].name == Comment)
  {
  }

  /** `zystonEvent.get(name).asText()`: fails when the field is absent. */
  function ReadText(event: Json.Node, name: string): Result<string, Fault>
  {
    match Json.Get(event, name)
    case None => Failure(MissingEventField(name))
    case Some(child) => Success(Json.AsText(child))
  }

  /** `ZystonEventSchema.toStruct`: projects a parsed event onto the schema, with `payload` supplied verbatim. */
  function ToStruct(event: Json.Node, payload: string): (r: Result<Event, Fault>)
    // It succeeds exactly when all four text fields, `comment` included, are present.
    ensures r.Success? <==> forall i :: 0 <= i < |TextFields| ==> Json.Get(event, TextFields[i]).Some?
    // A failure names the first absent field in reading order.
    ensures r.Failure? ==>
      exists k :: 0 <= k < |TextFields| && Json.Get(event, TextFields[k]).None?
        && (forall j :: 0 <= j < k ==> Json.Get(event, TextFields[j]).Some?)
        && r.error == MissingEventField(TextFields[k])
    // Each text field of the struct is the text of the JSON field of the same name.
    ensures r.Success? ==>
      forall i :: 0 <= i < |TextFields| ==>
        Get(r.value, TextFields[i]) == Some(Json.AsText(Json.Get(event, TextFields[i]).value))
    ensures r.Success? ==> Get(r.value, Payload) == Some(payload)
    // No schema field is left null, `comment` included.
    ensures r.Success? ==> forall i :: 0 <= i < |Schema| ==> Get(r.value, Schema[i].name).Some?
  {
    assert TextFields[0] == EventId && TextFields[1] == Timestamp;
    assert TextFields[2] == CommandId && TextFields[3] == Comment;
    var id :- ReadText(event, EventId);
    var ts :- ReadText(event, Timestamp);
    var cmd :- ReadText(event, CommandId);
    var comment :- ReadText(event, Comment);
    Success(Event(id, ts, cmd, comment, payload))
  }

  /** A JSON `null` comment is present, so it does not fail: it is read as the text "null". */
  lemma NullCommentReadsAsText(event: Json.Node, payload: string)
    requires forall i :: 0 <= i < |TextFields| ==> Json.Get(event, TextFields[i]).Some?
    requires Json.Get(event, Comment) == Some(Json.Null)
    ensures ToStruct(event, payload).Success?
    ensures Get(ToStruct(event, payload).value, Comment) == Some("null")
  {
  }
}

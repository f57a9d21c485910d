/**
 * The conversation data: the `Message` record of response-modal.tsx and the
 * session record the modal writes to local storage
 * (`{ messages, createdAt }` on creation, `{ messages, updatedAt }` afterwards).
 */
module Session {
  import opened Optional

  datatype Role = User | Assistant

  datatype Message = Message(id: string, role: Role, content: string, timestamp: int)

  /** A stored session; which of the two timestamps it carries depends on the write that stored it. */
  datatype Record = Record(messages: seq<Message>, createdAt: Option<int>, updatedAt: Option<int>)

  /**
   * `Array.prototype.findIndex` over the messages at positions `from` and later:
   * the first such position whose message satisfies `matches`, or `None` for -1.
   */
  function FindIndex(ms: seq<Message>, matches: Message -> bool, from: nat): (r: Option<nat>)
    ensures r.Some? ==> from <= r.value < |ms| && matches(ms[r.value])
    ensures r.Some? ==> forall j :: from <= j < r.value ==> !matches(ms[j])
    ensures r.None? ==> forall j :: from <= j < |ms| ==> !matches(ms[j])
    decreases |ms| - from
  {
    if from >= |ms| then None
    else if matches(ms[from]) then Some(from)
    else FindIndex(ms, matches, from + 1)
  }
}

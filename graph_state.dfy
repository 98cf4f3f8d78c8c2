/** The state a workflow graph threads through its nodes, and how a node's
    partial update is merged into it: `messages` is appended to, every other
    key returned by the node replaces the old value, and keys the node does
    not return are kept. */
module GraphState {
  import opened Common
  import opened Documents
  import opened Citations

  /** The values the state's keys hold. */
  datatype Field =
    | FInt(i: int)
    | FBool(b: bool)
    | FStr(s: string)
    | FDocs(docs: seq<Document>)
    | FSourcing(sourcing: Sourcing)
    | FNames(names: seq<string>)

  datatype State = State(messages: seq<Message>, fields: map<string, Field>)

  /** What a node returns: new messages and replaced keys. */
  datatype Update = Update(messages: seq<Message>, fields: map<string, Field>)

  /** Merging a node's update into the state. */
  function Apply(s: State, u: Update): (r: State)
    ensures |r.messages| == |s.messages| + |u.messages|
    ensures r.messages[..|s.messages|] == s.messages && r.messages[|s.messages|..] == u.messages
    ensures r.fields.Keys == s.fields.Keys + u.fields.Keys
    ensures forall k :: k in u.fields ==> r.fields[k] == u.fields[k]
    ensures forall k :: k in s.fields && k !in u.fields ==> r.fields[k] == s.fields[k]
  {
    State(s.messages + u.messages, s.fields + u.fields)
  }

  /** A node that returns the whole state: its messages carry the ids they
      already have, so none is appended again, and every key is written
      back with its own value. */
  function Unchanged(s: State): Update {
    Update([], s.fields)
  }

  /** Returning the state leaves it as it was. */
  lemma UnchangedKeeps(s: State)
    ensures Apply(s, Unchanged(s)) == s
  {
    assert s.messages + [] == s.messages;
  }

  /** `{"role": "user", "content": content}`. */
  function UserMessage(content: string): Message {
    Message("user", content, None)
  }

  /** A model reply (`AIMessage`). */
  function AiMessage(content: string): Message {
    Message("ai", content, None)
  }

  /** `messages[i]` with Python's negative indices. */
  function Nth(messages: seq<Message>, i: int): (r: Result<Message>)
    ensures r.Ok? <==> -|messages| <= i < |messages|
    ensures 0 <= i < |messages| ==> r == Ok(messages[i])
    ensures -|messages| <= i < 0 ==> r == Ok(messages[|messages| + i])
    ensures r.Err? ==> r.error == "IndexError"
  {
    if 0 <= i < |messages| then Ok(messages[i])
    else if -|messages| <= i < 0 then Ok(messages[|messages| + i])
    else Err("IndexError")
  }

  /** Python truthiness of a state value. */
  predicate FieldTruthy(f: Field) {
    match f
    case FInt(i) => i != 0
    case FBool(b) => b
    case FStr(t) => t != ""
    case FDocs(docs) => docs != []
    case FSourcing(sourcing) => sourcing != map[]
    case FNames(names) => names != []
  }

  /** `state[key]` used as an integer: a bool counts as 0 or 1, any other
      kind of value cannot be added to or compared with an int. */
  function IntField(s: State, key: string): (r: Result<int>)
    ensures key !in s.fields ==> r == Err("KeyError")
    ensures key in s.fields && s.fields[key].FInt? ==> r == Ok(s.fields[key].i)
    ensures r.Err? ==> r.error in {"KeyError", "TypeError"}
  {
    if key !in s.fields then Err("KeyError")
    else match s.fields[key]
      case FInt(i) => Ok(i)
      case FBool(b) => Ok(if b then 1 else 0)
      case _ => Err("TypeError")
  }

  /** `state[key]` used as a document list. */
  function DocsField(s: State, key: string): (r: Result<seq<Document>>)
    ensures key !in s.fields ==> r == Err("KeyError")
    ensures r.Ok? <==> key in s.fields && s.fields[key].FDocs?
    ensures r.Ok? ==> r.value == s.fields[key].docs
  {
    if key !in s.fields then Err("KeyError")
    else match s.fields[key]
      case FDocs(docs) => Ok(docs)
      case _ => Err("TypeError")
  }

  /** `state[key]` read as it is. */
  function AnyField(s: State, key: string): (r: Result<Field>)
    ensures r.Ok? <==> key in s.fields
    ensures r.Ok? ==> r.value == s.fields[key]
  {
    if key in s.fields then Ok(s.fields[key]) else Err("KeyError")
  }

  /** `state[key]` used as a string. */
  function StrField(s: State, key: string): (r: Result<string>)
    ensures r.Ok? <==> key in s.fields && s.fields[key].FStr?
    ensures r.Ok? ==> r.value == s.fields[key].s
  {
    if key !in s.fields then Err("KeyError")
    else match s.fields[key]
      case FStr(t) => Ok(t)
      case _ => Err("TypeError")
  }
}

/** Messages of a conversation, and which tool result answers which call. */
module Messages {
  import opened Wrappers

  datatype Role = System | User | Assistant | Tool | Other(tag: string)

  /** A message made for a view gets a new id; which one does not matter. */
  datatype Id = Given(text: string) | Generated

  datatype Value = Text(text: string) | NotText(raw: string)

  datatype Arguments = Dict(entries: seq<(string, Value)>) | NotDict(raw: string)

  datatype Call = Call(id: Option<string>, name: string, arguments: Arguments)

  datatype Message = Message(role: Role, content: string, id: Id, calls: seq<Call>,
                             toolUseId: Option<string>, name: Option<string>)

  // ----- which call a tool result answers -----

  ghost predicate Makes(m: Message, id: string) {
    exists c :: c in m.calls && c.id == Some(id)
  }

  /** The last of the first n messages that makes a call with this id. */
  ghost function LastCaller(h: seq<Message>, n: nat, id: string): Option<nat>
    requires n <= |h|
  {
    if n == 0 then None else if Makes(h[n - 1], id) then Some(n - 1) else LastCaller(h, n - 1, id)
  }

  /** The message whose call the result at i answers: the latest one before it with that call id. */
  ghost function Parent(h: seq<Message>, i: nat): Option<nat>
    requires i < |h|
  {
    match h[i].toolUseId
    case None => None
    case Some(id) => LastCaller(h, i, id)
  }

  lemma {:induction false} LastCallerIsLast(h: seq<Message>, n: nat, id: string, p: nat)
    requires n <= |h|
    ensures LastCaller(h, n, id) == Some(p) <==>
              (p < n && Makes(h[p], id) && forall k :: p < k < n ==> !Makes(h[k], id))
  {
    if n > 0 {
      LastCallerIsLast(h, n - 1, id, p);
    }
  }

  lemma {:induction false} LastCallerBefore(h: seq<Message>, n: nat, id: string)
    requires n <= |h|
    ensures LastCaller(h, n, id).Some? ==> LastCaller(h, n, id).value < n
  {
    if n > 0 {
      LastCallerBefore(h, n - 1, id);
    }
  }

  lemma {:induction false} LastCallerInPrefix(h: seq<Message>, h': seq<Message>, n: nat, id: string)
    requires n <= |h| && h <= h'
    ensures LastCaller(h', n, id) == LastCaller(h, n, id)
  {
    if n > 0 {
      LastCallerInPrefix(h, h', n - 1, id);
    }
  }

  lemma ParentBefore(h: seq<Message>, i: nat)
    requires i < |h| && Parent(h, i).Some?
    ensures Parent(h, i).value < i
  {
    LastCallerBefore(h, i, h[i].toolUseId.value);
  }

  lemma ParentInPrefix(h: seq<Message>, h': seq<Message>, i: nat)
    requires i < |h| && h <= h'
    ensures Parent(h', i) == Parent(h, i)
  {
    if h[i].toolUseId.Some? {
      LastCallerInPrefix(h, h', i, h[i].toolUseId.value);
    }
  }

  // ----- cuts -----

  /** The result at i, if it answers an assistant's call, answers one at or after c. */
  ghost predicate CallKept(h: seq<Message>, c: int, i: nat)
    requires i < |h|
  {
    h[i].role.Tool? && Parent(h, i).Some? ==>
      (ParentBefore(h, i);
       h[Parent(h, i).value].role.Assistant? ==> c <= Parent(h, i).value)
  }

  /** Keeping only the messages from c on separates no tool result from the assistant call it answers. */
  ghost predicate Whole(h: seq<Message>, c: nat) {
    forall i {:trigger CallKept(h, c, i)} :: c <= i < |h| ==> CallKept(h, c, i)
  }

  /** A tool result answers a call made at or after c, or none. */
  ghost predicate AnswersFrom(h: seq<Message>, c: nat, i: nat)
    requires i < |h|
  {
    h[i].role.Tool? && Parent(h, i).Some? ==> c <= Parent(h, i).value
  }

  /** How a conversation goes on: messages are added, and new tool results answer only new calls. */
  ghost predicate Grows(h: seq<Message>, h': seq<Message>) {
    && h <= h'
    && forall i {:trigger AnswersFrom(h', |h|, i)} :: |h| <= i < |h'| ==> AnswersFrom(h', |h|, i)
  }

  lemma WholeGrows(h: seq<Message>, h': seq<Message>, c: nat)
    requires Whole(h, c) && c <= |h| && Grows(h, h')
    ensures Whole(h', c)
  {
    forall i | c <= i < |h'| ensures CallKept(h', c, i) {
      if i < |h| {
        ParentInPrefix(h, h', i);
        assert CallKept(h, c, i);
        if Parent(h, i).Some? { ParentBefore(h, i); }
      } else {
        assert AnswersFrom(h', |h|, i);
      }
    }
  }

  lemma WholeInPrefix(h: seq<Message>, h': seq<Message>, c: nat)
    requires Whole(h', c) && h <= h'
    ensures Whole(h, c)
  {
    forall i | c <= i < |h| ensures CallKept(h, c, i) {
      ParentInPrefix(h, h', i);
      assert CallKept(h', c, i);
      if Parent(h, i).Some? { ParentBefore(h, i); }
    }
  }

  // ----- roles -----

  ghost predicate NoAdjacentUsers(h: seq<Message>) {
    forall i, j :: 0 <= i < j < |h| && j == i + 1 ==> !(h[i].role.User? && h[j].role.User?)
  }
}

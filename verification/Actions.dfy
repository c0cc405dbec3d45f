/** The two encodings of where an event is delivered, the webhook string and the action object, and
    the code that keeps the columns in step. */
module Actions {
  import opened Times
  import opened Tables

  /** A member of a JSON object that is read as a string: absent or null, a string, anything else. */
  datatype Field = Missing | Text(text: string) | NotText

  /** json.RawMessage: nil, null, another value that is not an object, or an object with the two
      members that are read and the rest of it. */
  datatype Params = Absent | Null | NotAnObject | Object(url: Field, clientName: Field, rest: seq<string>)

  /** models.ActionType; every other string, "apicall" and "" included, is Other. */
  datatype Kind = Webhook | Websocket | Other(name: string)

  datatype Action = Action(kind: Kind, params: Params)

  /** The two columns of an event. */
  datatype Target = Target(webhook: string, action: Option<Action>)

  // ---------- JSON ----------

  function ReadField(f: Field): Option<string> {
    match f
    case Missing => Some("")
    case Text(t) => Some(t)
    case NotText => None
  }

  /** json.Unmarshal into WebhookActionParams: null leaves the zero value. */
  function ReadUrl(p: Params): Option<string> {
    match p
    case Null => Some("")
    case Object(url, _, _) => ReadField(url)
    case _ => None
  }

  function ReadClientName(p: Params): Option<string> {
    match p
    case Null => Some("")
    case Object(_, clientName, _) => ReadField(clientName)
    case _ => None
  }

  /** The action column read back: nil params are marshalled as null. */
  function ReadBack(t: Target): Target {
    if t.action.Some? && t.action.value.params.Absent?
    then t.(action := Some(t.action.value.(params := Null)))
    else t
  }

  // ---------- the two conversions ----------

  predicate NamesClient(webhook: string) {
    |webhook| > 2 && webhook[..2] == "q:"
  }

  function FromWebhook(webhook: string): Action {
    if NamesClient(webhook)
    then Action(Websocket, Object(Missing, Text(webhook[2..]), []))
    else Action(Webhook, Object(Text(webhook), Missing, []))
  }

  /** populateWebhookFromAction: the webhook field afterwards. */
  function Populated(t: Target): string {
    match t.action
    case None => t.webhook
    case Some(a) =>
      match a.kind
      case Webhook => (match ReadUrl(a.params) case Some(url) => url case None => t.webhook)
      case Websocket => (match ReadClientName(a.params) case Some(name) => "q:" + name case None => t.webhook)
      case Other(_) => t.webhook
  }

  /** deriveAndSetAction. */
  function Derived(t: Target): Target {
    if t.webhook != "" then t.(action := Some(FromWebhook(t.webhook)))
    else t.(webhook := Populated(t))
  }

  // ---------- the request ----------

  datatype Refusal = MissingType | MissingParams | BadParams | EmptyTarget | UnknownType | NothingGiven

  datatype Reply = Accepted(target: Target) | Refused(why: Refusal)

  function CheckTarget(a: Action, read: Option<string>, prefix: string): Reply {
    match read
    case None => Refused(BadParams)
    case Some(s) => if s == "" then Refused(EmptyTarget) else Accepted(Target(prefix + s, Some(a)))
  }

  /** deriveActionFromRequest. */
  function DeriveFromRequest(webhook: Option<string>, action: Option<Action>): Reply {
    match action
    case Some(a) =>
      if a.kind == Other("") then Refused(MissingType)
      else if a.params.Absent? then Refused(MissingParams)
      else (match a.kind
            case Webhook => CheckTarget(a, ReadUrl(a.params), "")
            case Websocket => CheckTarget(a, ReadClientName(a.params), "q:")
            case Other(_) => Refused(UnknownType))
    case None =>
      if webhook.Some? && webhook.value != ""
      then Accepted(Target(webhook.value, Some(FromWebhook(webhook.value))))
      else Refused(NothingGiven)
  }

  /** What a request asks for: the action's own target if an action is given, whatever the webhook says, and
      otherwise the webhook. */
  predicate Asks(webhook: Option<string>, action: Option<Action>, target: string) {
    match action
    case None => webhook == Some(target) && target != ""
    case Some(Action(Webhook, params)) => params.Object? && params.url == Text(target) && target != ""
    case Some(Action(Websocket, params)) =>
      params.Object? && params.clientName.Text? && params.clientName.text != "" &&
      target == "q:" + params.clientName.text
    case Some(Action(Other(_), _)) => false
  }

  /** A request is accepted with a target if and only if it asks for it; a given action is kept as it is. */
  lemma AcceptedIff(webhook: Option<string>, action: Option<Action>, target: string)
    ensures var reply := DeriveFromRequest(webhook, action);
            && (reply.Accepted? && reply.target.webhook == target <==> Asks(webhook, action, target))
            && (reply.Accepted? && action.Some? ==> reply.target.action == action)
  {
    if action.Some? && action.value.kind.Webhook? {
      assert forall url: string :: "" + url == url;
    }
  }

  /** An accepted request is stored as the target it asks for and the action of that target. */
  lemma AskedIsStored(webhook: Option<string>, action: Option<Action>, target: string)
    requires Asks(webhook, action, target)
    ensures ReadBack(Derived(DeriveFromRequest(webhook, action).target)) == Target(target, Some(FromWebhook(target)))
  {
    AcceptedIff(webhook, action, target);
    AcceptedIsInStep(webhook, action);
  }

  // ---------- the round trip ----------

  /** Every nonempty webhook string survives string, action, string. */
  lemma WebhookRoundTrip(webhook: string, before: string)
    requires webhook != ""
    ensures Populated(Target(before, Some(FromWebhook(webhook)))) == webhook
  {
  }

  /** The other way round, exactly: an accepted action survives action, string, action if and only if
      it carries nothing but its target, and is not a webhook whose URL reads as a client's name. */
  ghost predicate Plain(a: Action) {
    match a.kind
    case Webhook =>
      a.params.Object? && a.params.clientName.Missing? && a.params.rest == [] &&
      a.params.url.Text? && !NamesClient(a.params.url.text)
    case Websocket =>
      a.params.Object? && a.params.url.Missing? && a.params.rest == [] && a.params.clientName.Text?
    case Other(_) => false
  }

  lemma ActionRoundTripIff(a: Action)
    requires DeriveFromRequest(None, Some(a)).Accepted?
    ensures var t := DeriveFromRequest(None, Some(a)).target;
            t.webhook != "" && (FromWebhook(t.webhook) == a <==> Plain(a))
  {
  }

  /** A webhook action whose URL is "q:" and more is turned into a websocket action when stored. */
  lemma WebhookActionBecomesWebsocket(name: string)
    requires name != ""
    ensures var a := Action(Webhook, Object(Text("q:" + name), Missing, []));
            var reply := DeriveFromRequest(None, Some(a));
            reply.Accepted? && reply.target.action == Some(a) &&
            Derived(reply.target).action == Some(Action(Websocket, Object(Missing, Text(name), [])))
  {
    assert ("q:" + name)[..2] == "q:" && ("q:" + name)[2..] == name;
    assert "" + ("q:" + name) == "q:" + name;
  }

  // ---------- the stored row ----------

  /** The two columns agree. */
  predicate InStep(t: Target) {
    t.webhook != "" && t.action == Some(FromWebhook(t.webhook))
  }

  /** GetByID after a row was written, then Update unchanged: what auto-inactivation does. */
  function Loaded(row: Target): Target {
    var t := ReadBack(row);
    t.(webhook := Populated(t))
  }

  function Resaved(row: Target): Target {
    Derived(Loaded(row))
  }

  function ResavedTimes(row: Target, n: nat): Target {
    if n == 0 then row else Resaved(ResavedTimes(row, n - 1))
  }

  /** Rows whose columns agree are exactly the rows with a target that loading and saving keep. */
  lemma InStepIffKept(row: Target)
    ensures InStep(row) ==> Loaded(row) == row && Resaved(row) == row
    ensures Loaded(row).webhook != "" && Resaved(row) == row ==> InStep(row)
  {
  }

  /** One load and save settles any row that loads with a target, whatever wrote it. */
  lemma {:induction false} ResavedOnceIsForAll(row: Target, n: nat)
    requires Loaded(row).webhook != "" && n > 0
    ensures InStep(Resaved(row)) && ResavedTimes(row, n) == Resaved(row)
  {
    if n > 1 {
      ResavedOnceIsForAll(row, n - 1);
      InStepIffKept(Resaved(row));
    } else {
      assert ResavedTimes(row, 1) == Resaved(ResavedTimes(row, 0));
    }
  }

  /** After a create through the handler any number of loads and saves changes neither column. */
  lemma {:induction false} CreatedIsStable(webhook: Option<string>, action: Option<Action>, n: nat)
    requires DeriveFromRequest(webhook, action).Accepted?
    ensures var asked := DeriveFromRequest(webhook, action).target;
            var stored := Derived(asked);
            && stored.webhook == asked.webhook
            && (stored == asked <==> action.None? || Plain(action.value))
            && ResavedTimes(stored, n) == stored && Loaded(ResavedTimes(stored, n)) == stored
  {
    var stored := Derived(DeriveFromRequest(webhook, action).target);
    if action.Some? {
      ActionRoundTripIff(action.value);
    }
    InStepIffKept(stored);
    if n > 0 {
      CreatedIsStable(webhook, action, n - 1);
    }
  }

  // ---------- the migration ----------

  /** The column that the second migration gives to rows without an action. */
  function Migrated(webhook: string): Action {
    if |webhook| >= 2 && webhook[..2] == "q:"
    then Action(Websocket, Object(Missing, Text(webhook[2..]), []))
    else Action(Webhook, Object(Text(webhook), Missing, []))
  }

  /** The migration and the program read every webhook string alike but one. */
  lemma MigrationAgreesIff(webhook: string)
    ensures Migrated(webhook) == FromWebhook(webhook) <==> webhook != "q:"
    ensures webhook != "" ==>
              Resaved(Target(webhook, Some(Migrated(webhook)))) == Target(webhook, Some(FromWebhook(webhook)))
  {
    if |webhook| >= 2 && webhook[..2] == "q:" {
      assert webhook == webhook[..2] + webhook[2..];
    }
  }

  // ---------- every run of the handlers over the table ----------

  datatype Op =
    | CreateOp(id: EventId, webhook: Option<string>, action: Option<Action>, restIsValid: bool)
    | UpdateOp(id: EventId, webhook: Option<string>, action: Option<Action>, restIsValid: bool)
    | ResaveOp(id: EventId)

  type Rows = map<EventId, Target>

  /** CreateEvent on the two columns; restIsValid stands for the checks of the other fields. */
  function AfterCreate(rows: Rows, id: EventId, webhook: Option<string>, action: Option<Action>,
                       restIsValid: bool): Rows
  {
    var reply := DeriveFromRequest(webhook, action);
    if reply.Refused? || !restIsValid then rows else rows[id := ReadBack(Derived(reply.target))]
  }

  /** What UpdateEvent is about to save: the action wins over the webhook, and neither keeps both. */
  function Asked(loaded: Target, webhook: Option<string>, action: Option<Action>): Reply {
    if action.Some? then DeriveFromRequest(None, action)
    else if webhook.Some? then DeriveFromRequest(webhook, None)
    else Accepted(loaded)
  }

  function AfterUpdate(rows: Rows, id: EventId, webhook: Option<string>, action: Option<Action>,
                       restIsValid: bool): Rows
  {
    if id !in rows then rows
    else
      var reply := Asked(Loaded(rows[id]), webhook, action);
      if reply.Refused? || !restIsValid then rows else rows[id := ReadBack(Derived(reply.target))]
  }

  function AfterOp(rows: Rows, op: Op): Rows {
    match op
    case CreateOp(id, webhook, action, valid) => AfterCreate(rows, id, webhook, action, valid)
    case UpdateOp(id, webhook, action, valid) => AfterUpdate(rows, id, webhook, action, valid)
    case ResaveOp(id) => if id in rows then rows[id := ReadBack(Resaved(rows[id]))] else rows
  }

  function AfterOps(rows: Rows, ops: seq<Op>): Rows
    decreases |ops|
  {
    if ops == [] then rows else AfterOps(AfterOp(rows, ops[0]), ops[1..])
  }

  lemma AcceptedIsInStep(webhook: Option<string>, action: Option<Action>)
    requires DeriveFromRequest(webhook, action).Accepted?
    ensures var t := DeriveFromRequest(webhook, action).target;
            InStep(Derived(t)) && ReadBack(Derived(t)) == Derived(t) && Derived(t).webhook == t.webhook
  {
  }

  lemma RequestDecides(webhook: Option<string>, action: Option<Action>)
    ensures forall t :: Asks(webhook, action, t) ==>
              DeriveFromRequest(webhook, action).Accepted? &&
              ReadBack(Derived(DeriveFromRequest(webhook, action).target)) == Target(t, Some(FromWebhook(t)))
    ensures DeriveFromRequest(webhook, action).Accepted? ==>
              Asks(webhook, action, DeriveFromRequest(webhook, action).target.webhook)
  {
    forall t | Asks(webhook, action, t)
      ensures DeriveFromRequest(webhook, action).Accepted?
      ensures ReadBack(Derived(DeriveFromRequest(webhook, action).target)) == Target(t, Some(FromWebhook(t)))
    {
      AcceptedIff(webhook, action, t);
      AskedIsStored(webhook, action, t);
    }
    if DeriveFromRequest(webhook, action).Accepted? {
      AcceptedIff(webhook, action, DeriveFromRequest(webhook, action).target.webhook);
    }
  }

  lemma OpKeepsInStep(rows: Rows, op: Op)
    requires forall id :: id in rows ==> InStep(rows[id])
    ensures forall id :: id in AfterOp(rows, op) ==> InStep(AfterOp(rows, op)[id])
    ensures op.ResaveOp? ==> AfterOp(rows, op) == rows
  {
    match op
    case CreateOp(id, webhook, action, valid) =>
      if DeriveFromRequest(webhook, action).Accepted? {
        AcceptedIsInStep(webhook, action);
      }
    case UpdateOp(id, webhook, action, valid) =>
      if id in rows {
        InStepIffKept(rows[id]);
        if action.Some? && DeriveFromRequest(None, action).Accepted? {
          AcceptedIsInStep(None, action);
        }
      }
    case ResaveOp(id) =>
      if id in rows {
        InStepIffKept(rows[id]);
        assert rows[id := rows[id]] == rows;
      }
  }

  /** In every run of creates, updates and auto-inactivations the two columns of every row agree, and
      the operations that touch neither column leave the table as it was. */
  lemma {:induction false} ColumnsStayInStep(rows: Rows, ops: seq<Op>)
    requires forall id :: id in rows ==> InStep(rows[id])
    ensures forall id :: id in AfterOps(rows, ops) ==> InStep(AfterOps(rows, ops)[id])
    ensures (forall op :: op in ops ==> op.ResaveOp?) ==> AfterOps(rows, ops) == rows
    decreases |ops|
  {
    if ops != [] {
      OpKeepsInStep(rows, ops[0]);
      assert ops[0] in ops;
      ColumnsStayInStep(AfterOp(rows, ops[0]), ops[1..]);
    }
  }

  // ---------- the code ----------

  class Event {
    var webhook: string
    var action: Option<Action>

    constructor (t: Target)
      ensures webhook == t.webhook && action == t.action
    {
      webhook, action := t.webhook, t.action;
    }

    function View(): Target
      reads this
    {
      Target(webhook, action)
    }
  }

  class Repository {
    var rows: Rows

    constructor ()
      ensures rows == map[]
    {
      rows := map[];
    }

    static method PopulateWebhookFromAction(event: Event)
      modifies event`webhook
      ensures event.webhook == old(Populated(event.View()))
    {
      if event.action.None? {
        return;
      }
      match event.action.value.kind {
        case Webhook =>
          var url := ReadUrl(event.action.value.params);
          if url.Some? {
            event.webhook := url.value;
          }
        case Websocket =>
          var name := ReadClientName(event.action.value.params);
          if name.Some? {
            event.webhook := "q:" + name.value;
          }
        case Other(_) =>
      }
    }

    static method DeriveAndSetAction(event: Event)
      modifies event
      ensures event.View() == old(Derived(event.View()))
    {
      if event.webhook != "" {
        if |event.webhook| > 2 && event.webhook[..2] == "q:" {
          event.action := Some(Action(Websocket, Object(Missing, Text(event.webhook[2..]), [])));
        } else {
          event.action := Some(Action(Webhook, Object(Text(event.webhook), Missing, [])));
        }
      } else if event.action.Some? {
        PopulateWebhookFromAction(event);
      }
    }

    /** id is fresh: uuid.New. */
    method Create(event: Event, id: EventId)
      requires id !in rows
      modifies this, event
      ensures event.View() == old(Derived(event.View()))
      ensures rows == old(rows)[id := ReadBack(event.View())]
    {
      DeriveAndSetAction(event);
      rows := rows[id := ReadBack(event.View())];
    }

    method GetByID(id: EventId) returns (event: Event?)
      ensures event != null <==> id in rows
      ensures event != null ==> fresh(event) && event.View() == Loaded(rows[id])
    {
      if id !in rows {
        return null;
      }
      event := new Event(ReadBack(rows[id]));
      PopulateWebhookFromAction(event);
    }

    method Update(event: Event, id: EventId) returns (found: bool)
      modifies this, event
      ensures event.View() == old(Derived(event.View()))
      ensures found <==> id in old(rows)
      ensures rows == if found then old(rows)[id := ReadBack(event.View())] else old(rows)
    {
      DeriveAndSetAction(event);
      found := id in rows;
      if found {
        rows := rows[id := ReadBack(event.View())];
      }
    }

    /** CreateEvent on the two columns. */
    method HandleCreate(id: EventId, webhook: Option<string>, action: Option<Action>, restIsValid: bool)
      requires id !in rows
      modifies this
      ensures rows == old(AfterCreate(rows, id, webhook, action, restIsValid))
      ensures forall t :: restIsValid && Asks(webhook, action, t) ==>
                rows == old(rows)[id := Target(t, Some(FromWebhook(t)))]
      ensures !restIsValid || (forall t :: !Asks(webhook, action, t)) ==> rows == old(rows)
    {
      RequestDecides(webhook, action);
      var reply := DeriveFromRequest(webhook, action);
      if reply.Refused? || !restIsValid {
        return;
      }
      var event := new Event(reply.target);
      Create(event, id);
    }

    /** UpdateEvent on the two columns. */
    method HandleUpdate(id: EventId, webhook: Option<string>, action: Option<Action>, restIsValid: bool)
      modifies this
      ensures rows == old(AfterUpdate(rows, id, webhook, action, restIsValid))
      ensures forall t :: id in old(rows) && restIsValid && Asks(webhook, action, t) ==>
                rows == old(rows)[id := Target(t, Some(FromWebhook(t)))]
      ensures (id in old(rows) && restIsValid ==>
                 (action.Some? || webhook.Some?) && forall t :: !Asks(webhook, action, t)) ==> rows == old(rows)
      ensures id in old(rows) && restIsValid && action.None? && webhook.None? && InStep(old(rows)[id]) ==>
                rows == old(rows)
    {
      RequestDecides(webhook, action);
      RequestDecides(None, action);
      if id in rows {
        InStepIffKept(rows[id]);
      }
      var event := GetByID(id);
      if event == null {
        return;
      }
      if action.Some? {
        var reply := DeriveFromRequest(None, action);
        if reply.Refused? {
          return;
        }
        event.webhook, event.action := reply.target.webhook, reply.target.action;
      } else if webhook.Some? {
        var reply := DeriveFromRequest(webhook, None);
        if reply.Refused? {
          return;
        }
        event.webhook, event.action := reply.target.webhook, reply.target.action;
      }
      if !restIsValid {
        return;
      }
      var found := Update(event, id);
    }
  }
}

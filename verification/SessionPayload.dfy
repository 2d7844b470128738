/** The session payload that the SDK sends and the server ingests. */
module SessionPayload {
  import opened EventTable

  datatype Action =
    | Pageview(path: string, pageNumber: int, duration: int, scroll: int, enteredAt: int, exitedAt: int)
    | Goal(name: string, path: string, pageNumber: int, timestamp: int,
           value: Option<real>, properties: map<string, string>)
  {
    function Id(): ActionId {
      match this
      case Pageview(path, n, _, _, enteredAt, _) => PageviewId(path, n, enteredAt)
      case Goal(name, path, n, t, v, props) => GoalId(name, path, n, t, v, props)
    }
  }

  /** The part of an action that never changes once it is in the log. */
  datatype ActionId =
    | PageviewId(path: string, pageNumber: int, enteredAt: int)
    | GoalId(name: string, path: string, pageNumber: int, timestamp: int,
             value: Option<real>, properties: map<string, string>)

  /** `attributes` stands for the traffic, device and custom fields. */
  datatype Payload = Payload(
    workspaceId: string,
    sessionId: string,
    actions: seq<Action>,
    attributes: map<string, string>,
    createdAt: int,
    updatedAt: int)

  function Ids(actions: seq<Action>): (ids: seq<ActionId>)
    ensures |ids| == |actions|
    ensures forall i | 0 <= i < |ids| :: ids[i] == actions[i].Id()
  {
    seq(|actions|, i requires 0 <= i < |actions| => actions[i].Id())
  }
}

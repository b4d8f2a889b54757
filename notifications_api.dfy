/** app/api/notificationsApi.ts: requests for the notifications of an organisation. */
module NotificationsApi {
  import opened Wrappers
  import opened Strings
  import opened Http

  /** A value of the `params` record: absent, or a flag such as `unreadOnly`, or a count
    * such as `take`. */
  datatype ParamValue = Undefined | Flag(b: bool) | Count(n: int)

  datatype MarkReadBody = MarkReadBody(ids: seq<string>)

  /** `String(value)`. */
  function ParamString(v: ParamValue): string
    requires v != Undefined
  {
    match v
    case Flag(b) => BoolString(b)
    case Count(n) => IntToString(n)
  }

  /** `/v1/organizations/{organizationId}/notifications`. */
  function NotificationsPath(organizationId: string): string
  {
    Path(["v1", "organizations", organizationId, "notifications"])
  }

  lemma NotificationsPathText(organizationId: string)
    ensures NotificationsPath(organizationId) == "/v1/organizations/" + organizationId + "/notifications"
  {
    OrganizationPath(organizationId);
    assert ["v1", "organizations", organizationId] + ["notifications"] == ["v1", "organizations", organizationId, "notifications"];
    PathSnoc(["v1", "organizations", organizationId], "notifications");
  }

  /** The text of the path one action segment below the notifications path. */
  lemma ActionPathText(organizationId: string, action: string)
    ensures Path(["v1", "organizations", organizationId, "notifications", action]) ==
      "/v1/organizations/" + organizationId + "/notifications/" + action
  {
    NotificationsPathText(organizationId);
    assert ["v1", "organizations", organizationId, "notifications"] + [action] ==
      ["v1", "organizations", organizationId, "notifications", action];
    PathSnoc(["v1", "organizations", organizationId, "notifications"], action);
  }

  /** The record the `reduce` builds: every defined entry, stringified, in order. The content
    * is stated by DefinedParamsAppend, DefinedParamsMiddle and ListQueryRules, the keys by
    * DefinedParamsKeys. */
  function DefinedParams(params: seq<(string, ParamValue)>): (pairs: seq<(string, string)>)
    ensures |pairs| <= |params|
    decreases |params|
  {
    if params == [] then []
    else
      (if params[0].1 == Undefined then [] else [(params[0].0, ParamString(params[0].1))]) +
      DefinedParams(params[1..])
  }

  /** Keeping the defined entries distributes over concatenation: order is preserved. */
  lemma {:induction false} DefinedParamsAppend(a: seq<(string, ParamValue)>, b: seq<(string, ParamValue)>)
    ensures DefinedParams(a + b) == DefinedParams(a) + DefinedParams(b)
    decreases |a|
  {
    if a == [] {
      assert a + b == b;
    } else {
      assert (a + b)[0] == a[0];
      assert (a + b)[1..] == a[1..] + b;
      DefinedParamsAppend(a[1..], b);
    }
  }

  /** Only keys of the record appear in the query. */
  lemma {:induction false} DefinedParamsKeys(params: seq<(string, ParamValue)>)
    ensures forall k :: k in Keys(DefinedParams(params)) ==> k in Keys(params)
    decreases |params|
  {
    if params != [] {
      DefinedParamsKeys(params[1..]);
      var rest := DefinedParams(params[1..]);
      var head := if params[0].1 == Undefined then [] else [(params[0].0, ParamString(params[0].1))];
      assert Keys(head + rest) == Keys(head) + Keys(rest);
      assert Keys(params) == [params[0].0] + Keys(params[1..]);
    }
  }

  /** The request `list` makes. */
  function ListRequest(organizationId: string, params: Option<seq<(string, ParamValue)>>): (r: Request<MarkReadBody>)
    ensures r.verb == Get && r.body.None?
    ensures params.None? || DefinedParams(params.value) == [] ==>
      r.url == "/v1/organizations/" + organizationId + "/notifications"
    ensures params.Some? && DefinedParams(params.value) != [] ==>
      r.url == "/v1/organizations/" + organizationId + "/notifications?" + QueryString(DefinedParams(params.value))
  {
    NotificationsPathText(organizationId);
    var query := if params.None? then "" else QueryString(DefinedParams(params.value));
    Request(Get, WithQuery(NotificationsPath(organizationId), query), None)
  }

  /** `notificationsApi.list(organizationId, params)`: the record of defined entries is
    * folded up entry by entry, then turned into the query. */
  method List(organizationId: string, params: Option<seq<(string, ParamValue)>>) returns (req: Request<MarkReadBody>)
    requires params.Some? ==> DistinctKeys(params.value)
    ensures req == ListRequest(organizationId, params)
  {
    var query := "";
    if params.Some? {
      var entries := params.value;
      var acc: seq<(string, string)> := [];
      var i := 0;
      while i < |entries|
        invariant 0 <= i <= |entries|
        invariant acc == DefinedParams(entries[..i])
      {
        var key := entries[i].0;
        var value := entries[i].1;
        DefinedParamsAppend(entries[..i], [entries[i]]);
        assert entries[..i + 1] == entries[..i] + [entries[i]];
        if value != Undefined {
          DefinedParamsKeys(entries[..i]);
          assert key !in Keys(entries[..i]);
          acc := SetPair(acc, key, ParamString(value));
        }
        i := i + 1;
      }
      assert entries[..|entries|] == entries;
      var search := new SearchParams.FromRecord(acc);
      query := search.ToString();
    }
    req := Request(Get, WithQuery(NotificationsPath(organizationId), query), None);
  }

  /** An entry between two others contributes its own pair, if any, in its place. */
  lemma DefinedParamsMiddle(before: seq<(string, ParamValue)>, entry: (string, ParamValue), after: seq<(string, ParamValue)>)
    ensures DefinedParams(before + [entry] + after) ==
      DefinedParams(before) + DefinedParams([entry]) + DefinedParams(after)
  {
    DefinedParamsAppend(before + [entry], after);
    DefinedParamsAppend(before, [entry]);
  }

  /** No `params` gives the bare path; `false` and `0` are sent, undefined entries are
    * not, and entries keep the record's order. */
  lemma ListQueryRules(organizationId: string, before: seq<(string, ParamValue)>, after: seq<(string, ParamValue)>, key: string)
    ensures ListRequest(organizationId, None).url == NotificationsPath(organizationId)
    ensures DefinedParams(before + [(key, Undefined)] + after) == DefinedParams(before) + DefinedParams(after)
    ensures DefinedParams(before + [(key, Flag(false))] + after) == DefinedParams(before) + [(key, "false")] + DefinedParams(after)
    ensures DefinedParams(before + [(key, Count(0))] + after) == DefinedParams(before) + [(key, "0")] + DefinedParams(after)
  {
    UndefinedEntryDropped(before, after, key);
    FlagEntrySent(before, after, key);
    CountEntrySent(before, after, key);
  }

  lemma UndefinedEntryDropped(before: seq<(string, ParamValue)>, after: seq<(string, ParamValue)>, key: string)
    ensures DefinedParams(before + [(key, Undefined)] + after) == DefinedParams(before) + DefinedParams(after)
  {
    var entry := (key, Undefined);
    DefinedParamsMiddle(before, entry, after);
    assert DefinedParams([entry]) == [] by {
      assert [entry][1..] == [];
    }
    assert DefinedParams(before) + [] == DefinedParams(before);
  }

  lemma FlagEntrySent(before: seq<(string, ParamValue)>, after: seq<(string, ParamValue)>, key: string)
    ensures DefinedParams(before + [(key, Flag(false))] + after) == DefinedParams(before) + [(key, "false")] + DefinedParams(after)
  {
    DefinedParamsMiddle(before, (key, Flag(false)), after);
    assert DefinedParams([(key, Flag(false))]) == [(key, "false")];
  }

  lemma CountEntrySent(before: seq<(string, ParamValue)>, after: seq<(string, ParamValue)>, key: string)
    ensures DefinedParams(before + [(key, Count(0))] + after) == DefinedParams(before) + [(key, "0")] + DefinedParams(after)
  {
    DefinedParamsMiddle(before, (key, Count(0)), after);
    assert IntToString(0) == "0";
    assert DefinedParams([(key, Count(0))]) == [(key, "0")];
  }

  /** An empty record, or one whose entries are all undefined, gives the bare path too. */
  lemma {:induction false} AllUndefinedBarePath(organizationId: string, params: seq<(string, ParamValue)>)
    requires forall i :: 0 <= i < |params| ==> params[i].1 == Undefined
    ensures DefinedParams(params) == []
    ensures ListRequest(organizationId, Some(params)).url == NotificationsPath(organizationId)
    decreases |params|
  {
    if params != [] {
      AllUndefinedBarePath(organizationId, params[1..]);
    }
  }

  /** The last path segment of each action. */
  const MarkReadSegment := "mark-read"
  const MarkAllReadSegment := "mark-all-read"
  const ReminderSegment := "reminder"

  /** `notificationsApi.markRead`. */
  function MarkRead(organizationId: string, ids: seq<string>): (r: Request<MarkReadBody>)
    ensures r.verb == Post && r.body == Some(MarkReadBody(ids))
    ensures r.url == "/v1/organizations/" + organizationId + "/notifications/" + MarkReadSegment
  {
    ActionPathText(organizationId, MarkReadSegment);
    Request(Post, Path(["v1", "organizations", organizationId, "notifications", MarkReadSegment]), Some(MarkReadBody(ids)))
  }

  /** `notificationsApi.markAllRead`. */
  function MarkAllRead(organizationId: string): (r: Request<MarkReadBody>)
    ensures r.verb == Post && r.body.None?
    ensures r.url == "/v1/organizations/" + organizationId + "/notifications/" + MarkAllReadSegment
  {
    ActionPathText(organizationId, MarkAllReadSegment);
    Request(Post, Path(["v1", "organizations", organizationId, "notifications", MarkAllReadSegment]), None)
  }

  /** `notificationsApi.createReminder`. */
  function CreateReminder(organizationId: string): (r: Request<MarkReadBody>)
    ensures r.verb == Post && r.body.None?
    ensures r.url == "/v1/organizations/" + organizationId + "/notifications/" + ReminderSegment
  {
    ActionPathText(organizationId, ReminderSegment);
    Request(Post, Path(["v1", "organizations", organizationId, "notifications", ReminderSegment]), None)
  }

  /** An action's path is the notifications path plus one segment, and splits into
    * whole segments. */
  lemma ActionPath(organizationId: string, action: string)
    requires '/' !in organizationId && '/' !in action
    ensures Path(["v1", "organizations", organizationId, "notifications", action]) ==
      NotificationsPath(organizationId) + "/" + action
    ensures Split(Path(["v1", "organizations", organizationId, "notifications", action]), '/') ==
      ["", "v1", "organizations", organizationId, "notifications", action]
  {
    assert ["v1", "organizations", organizationId, "notifications"] + [action] ==
      ["v1", "organizations", organizationId, "notifications", action];
    PathSnoc(["v1", "organizations", organizationId, "notifications"], action);
    PathSegments(["v1", "organizations", organizationId, "notifications", action]);
  }

  /** A URL written out as an action path is the notifications path plus the action,
    * and splits into whole segments. */
  lemma ActionUrl(organizationId: string, action: string, url: string)
    requires '/' !in organizationId && '/' !in action
    requires url == "/v1/organizations/" + organizationId + "/notifications/" + action
    ensures url == NotificationsPath(organizationId) + "/" + action
    ensures Split(url, '/') == ["", "v1", "organizations", organizationId, "notifications", action]
  {
    ActionPathText(organizationId, action);
    ActionPath(organizationId, action);
  }

  /** `markRead` POSTs the ids to `mark-read` below the notifications path. */
  lemma MarkReadShape(organizationId: string, ids: seq<string>)
    requires '/' !in organizationId
    ensures MarkRead(organizationId, ids).verb == Post && MarkRead(organizationId, ids).body == Some(MarkReadBody(ids))
    ensures MarkRead(organizationId, ids).url == NotificationsPath(organizationId) + "/" + MarkReadSegment
    ensures Split(MarkRead(organizationId, ids).url, '/') ==
      ["", "v1", "organizations", organizationId, "notifications", MarkReadSegment]
  {
    ActionUrl(organizationId, MarkReadSegment, MarkRead(organizationId, ids).url);
  }

  /** `markAllRead` POSTs no body to `mark-all-read` below the notifications path. */
  lemma MarkAllReadShape(organizationId: string)
    requires '/' !in organizationId
    ensures MarkAllRead(organizationId).verb == Post && MarkAllRead(organizationId).body.None?
    ensures MarkAllRead(organizationId).url == NotificationsPath(organizationId) + "/" + MarkAllReadSegment
    ensures Split(MarkAllRead(organizationId).url, '/') ==
      ["", "v1", "organizations", organizationId, "notifications", MarkAllReadSegment]
  {
    ActionUrl(organizationId, MarkAllReadSegment, MarkAllRead(organizationId).url);
  }

  /** `createReminder` POSTs no body to `reminder` below the notifications path. */
  lemma ReminderShape(organizationId: string)
    requires '/' !in organizationId
    ensures CreateReminder(organizationId).verb == Post && CreateReminder(organizationId).body.None?
    ensures CreateReminder(organizationId).url == NotificationsPath(organizationId) + "/" + ReminderSegment
    ensures Split(CreateReminder(organizationId).url, '/') ==
      ["", "v1", "organizations", organizationId, "notifications", ReminderSegment]
  {
    ActionUrl(organizationId, ReminderSegment, CreateReminder(organizationId).url);
  }
}

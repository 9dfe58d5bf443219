/**
  The agent's heartbeat (agent-package/src/kitt_agent/heartbeat.py) with the
  callbacks the agent wires to it (agent-package/src/kitt_agent/cli.py).
*/
module Heartbeat {
  import opened Basics

  /** The daemon's own copy of the agent id, used for its reports. */
  class AgentApp {
    var reportId: string

    constructor (id: string)
      ensures reportId == id
    {
      reportId := id;
    }

    method SetAgentId(newId: string)
      modifies this
      ensures reportId == if newId != "" then newId else old(reportId)
    {
      if newId != "" {
        reportId := newId;
      }
    }
  }

  /** How the server takes one post: a reply, perhaps with a canonical id; 404; or any other failure. */
  datatype Answer = Reply(agentId: Option<string>) | NotFound | Failure

  /** The id in use after a post sent under `id`. */
  function Canonical(answer: Answer, id: string): string {
    if answer.Reply? && Truthy(answer.agentId) then answer.agentId.value else id
  }

  const RUNNING := "running"

  predicate Runs(status: string) { status == RUNNING }

  predicate IntervalOk(seconds: int) { 10 <= seconds <= 300 }

  /** Not running: the active interval is the base one. Running: it is at least a minute. */
  predicate IntervalsOk(status: string, base: int, active: int) {
    IntervalOk(base) && IntervalOk(active) && (if Runs(status) then active >= 60 else active == base)
  }

  /** The fields that the heartbeat thread and the command thread share. */
  datatype Shared = Shared(status: string, base: int, active: int) {
    predicate Ok() { IntervalsOk(status, base, active) }
  }

  function Throttled(running: bool, seconds: int): int {
    if running then Max(seconds, 60) else seconds
  }

  function AfterSync(s: Shared, interval: int): Shared {
    if IntervalOk(interval) then Shared(s.status, interval, Throttled(Runs(s.status), interval)) else s
  }

  function AfterStatus(s: Shared, status: string): Shared {
    Shared(status, s.base, Throttled(Runs(status), s.base))
  }

  function AfterInterval(s: Shared, seconds: int): Shared {
    if !IntervalOk(seconds) then s
    else Shared(s.status, seconds, if Runs(s.status) then s.active else seconds)
  }

  class HeartbeatThread {
    const app: AgentApp
    const canRegister: bool
    var agentId: string
    var status: string
    var baseInterval: int
    var activeInterval: int
    var retrying: bool

    function View(): Shared
      reads this
    {
      Shared(status, baseInterval, activeInterval)
    }

    predicate Valid()
      reads this
    {
      View().Ok()
    }

    /** The heartbeat and the daemon use the same, non-empty id. */
    predicate SameId()
      reads this, app
    {
      agentId == app.reportId && agentId != ""
    }

    /** Only a 404 outside a retry re-registers. */
    predicate Reregisters(answer: Answer, retrying: bool) {
      answer.NotFound? && canRegister && !retrying
    }

    constructor (app: AgentApp, agentId: string, interval: int, canRegister: bool)
      requires IntervalOk(interval)
      ensures Valid() && !retrying && this.app == app && this.agentId == agentId
      ensures status == "idle" && baseInterval == interval
    {
      this.app, this.agentId, this.canRegister := app, agentId, canRegister;
      status, baseInterval, activeInterval, retrying := "idle", interval, interval, false;
    }

    method SetStatus(newStatus: string)
      requires Valid()
      modifies `status, `activeInterval
      ensures Valid() && View() == AfterStatus(old(View()), newStatus)
      ensures status == newStatus
      ensures newStatus == "running" ==> activeInterval == if baseInterval < 60 then 60 else baseInterval
      ensures newStatus != "running" ==> activeInterval == baseInterval
    {
      status := newStatus;
      if Runs(newStatus) {
        activeInterval := Max(baseInterval, 60);
      } else {
        activeInterval := baseInterval;
      }
    }

    method SetInterval(seconds: int)
      requires Valid()
      modifies `baseInterval, `activeInterval
      ensures Valid() && View() == AfterInterval(old(View()), seconds)
      ensures baseInterval == if 10 <= seconds <= 300 then seconds else old(baseInterval)
      ensures activeInterval == if status != "running" then baseInterval else old(activeInterval)
    {
      if 10 <= seconds <= 300 {
        baseInterval := seconds;
        if !Runs(status) {
          activeInterval := seconds;
        }
      }
    }

    /** The settings part of a beat; None when the reply has no usable interval. */
    method SyncSettings(interval: Option<int>)
      requires Valid()
      modifies `baseInterval, `activeInterval
      ensures Valid() && View() == if interval.Some? then AfterSync(old(View()), interval.value) else old(View())
      ensures match interval
              case Some(s) =>
                if s < 10 || s > 300 then baseInterval == old(baseInterval) && activeInterval == old(activeInterval)
                else baseInterval == s && activeInterval == if status == "running" && s < 60 then 60 else s
              case None => baseInterval == old(baseInterval) && activeInterval == old(activeInterval)
    {
      if interval.Some? && 10 <= interval.value <= 300 {
        baseInterval := interval.value;
        if Runs(status) {
          activeInterval := Max(interval.value, 60);
        } else {
          activeInterval := interval.value;
        }
      }
    }

    /** The `register_fn` callback: a successful registration also updates the daemon. */
    method Register(newId: string)
      modifies app
      ensures app.reportId == if newId != "" then newId else old(app.reportId)
    {
      if newId != "" {
        app.SetAgentId(newId);
      }
    }

    /**
      One beat: `first` answers the post, `registration` is the id that
      re-registering would give ("" if it fails), `second` answers the retry.
    */
    method SendHeartbeat(first: Answer, registration: string, second: Answer)
      returns (ok: bool, posts: nat, registrations: nat)
      modifies this, app
      ensures !old(retrying) ==> !retrying
      ensures old(retrying) ==> retrying
      ensures posts == (if Reregisters(first, old(retrying)) && registration != "" then 2 else 1)
      ensures registrations == if Reregisters(first, old(retrying)) then 1 else 0
      ensures agentId == if posts == 2 then Canonical(second, registration) else Canonical(first, old(agentId))
      ensures app.reportId == if agentId != old(agentId) || posts == 2 then agentId else old(app.reportId)
      ensures ok <==> first.Reply? || (posts == 2 && second.Reply?)
      ensures match first
              case Reply(Some(id)) => ok && posts == 1 && agentId == if id == "" then old(agentId) else id
              case Reply(None) => ok && posts == 1 && agentId == old(agentId)
              case NotFound => posts == 1 ==> !ok && agentId == old(agentId)
              case Failure => !ok && posts == 1 && agentId == old(agentId)
      ensures posts == 2 ==>
              match second
              case Reply(Some(id)) => ok && agentId == if id == "" then registration else id
              case Reply(None) => ok && agentId == registration
              case _ => !ok && agentId == registration
      ensures posts == 2 <==> first == NotFound && canRegister && !old(retrying) && registration != ""
      ensures old(SameId()) ==> SameId()
      ensures View() == old(View())
      decreases if retrying then 0 else 1
    {
      posts, registrations := 1, 0;
      match first
      case Reply(canonical) =>
        if canonical.Some? && canonical.value != "" && canonical.value != agentId {
          agentId := canonical.value;
          app.SetAgentId(canonical.value);
        }
        ok := true;
      case NotFound =>
        ok := false;
        if canRegister && !retrying {
          retrying := true;
          registrations := 1;
          Register(registration);
          if registration != "" {
            agentId := registration;
            app.SetAgentId(registration);
            var again: nat, more: nat;
            ok, again, more := SendHeartbeat(second, registration, second);
            posts := posts + again;
          }
          retrying := false;
        }
      case Failure =>
        ok := false;
    }
  }
}

/**
 * Background tasks (lib/dt_shell/tasks.py). A `Task` is a daemon thread with four flags:
 * `started`, `finished`, `requested_shutdown` and the constant `killable`. It registers its
 * `_shutdown` on the shell's KEYBOARD_INTERRUPT and SHUTDOWN events when it is built.
 * Threads are not modelled: `execute()` is reduced to how it ended, and `join()` to a
 * returned "waited" flag. The ghost `history` records the order of the steps.
 */
module Tasks {
  import opened Wrappers
  import Events
  import Staleness

  /** How a task's `execute()` ended. */
  datatype ExecOutcome =
    | Completed     // returned normally
    | Interrupted   // raised KeyboardInterrupt
    | Raised        // raised any other exception

  /** Observable steps of a task, in the order they happen. */
  datatype Step = Started | Executed(outcome: ExecOutcome) | Finished | ShutdownRequested | HookCalled | Joined

  class Task {
    const name: string
    const killable: bool
    var started: bool
    var finished: bool
    var requestedShutdown: bool
    ghost var history: seq<Step>

    /**
     * `Task.__init__(shell, name, killable)`: all three flags false, and `_shutdown`
     * appended to the KEYBOARD_INTERRUPT list and (through `on_shutdown`) to the SHUTDOWN list.
     */
    constructor (bus: Events.EventBus, name: string, killable: bool)
      requires bus.Valid()
      modifies bus
      ensures bus.Valid()
      ensures this.name == name && this.killable == killable
      ensures !started && !finished && !requestedShutdown && history == []
      ensures bus.handlers ==
                old(bus.handlers)[Events.KeyboardInterrupt := old(bus.handlers)[Events.KeyboardInterrupt] + [Events.TaskShutdown(name)]]
                                 [Events.Shutdown := old(bus.handlers)[Events.Shutdown] + [Events.TaskShutdown(name)]]
    {
      this.name := name;
      this.killable := killable;
      started, finished := false, false;
      requestedShutdown := false;
      history := [];
      new;
      bus.OnKeyboardInterrupt(Events.TaskShutdown(name));
      bus.OnShutdown(Events.TaskShutdown(name));
    }

    /** The part of `run()` before `execute()`: mark the task as started. */
    method BeforeExecute()
      modifies this
      ensures started && finished == old(finished) && requestedShutdown == old(requestedShutdown)
      ensures history == old(history) + [Started]
    {
      started := true;
      history := history + [Started];
    }

    /**
     * The part of `run()` after `execute()`: `finished` is set on every outcome (the
     * `finally`); a KeyboardInterrupt is swallowed and any other exception propagates.
     */
    method AfterExecute(outcome: ExecOutcome) returns (propagates: bool)
      modifies this
      ensures finished && started == old(started) && requestedShutdown == old(requestedShutdown)
      ensures propagates <==> outcome == Raised
      ensures history == old(history) + [Executed(outcome), Finished]
    {
      history := history + [Executed(outcome)];
      finished := true;
      history := history + [Finished];
      propagates := outcome == Raised;
    }

    /** `run()` for a job whose `execute()` ends with `outcome`. */
    method Run(outcome: ExecOutcome) returns (propagates: bool)
      modifies this
      ensures started && finished && requestedShutdown == old(requestedShutdown)
      ensures propagates <==> outcome == Raised
      ensures history == old(history) + [Started, Executed(outcome), Finished]
    {
      BeforeExecute();
      propagates := AfterExecute(outcome);
    }

    /**
     * `_shutdown(event)`: the first call sets `requested_shutdown`, calls the job's
     * `shutdown` hook and, for a task that is not killable, waits for the thread; every
     * later call returns at once and does nothing.
     */
    method Shutdown() returns (hookCalled: bool, waited: bool)
      modifies this
      ensures requestedShutdown
      ensures started == old(started) && finished == old(finished)
      ensures hookCalled <==> !old(requestedShutdown)
      ensures waited <==> !old(requestedShutdown) && !killable
      ensures history == old(history) + (if old(requestedShutdown) then []
                                         else [ShutdownRequested, HookCalled] + (if killable then [] else [Joined]))
    {
      if requestedShutdown {
        return false, false;
      }
      requestedShutdown := true;
      history := history + [ShutdownRequested];
      // forward shutdown request to job implementation
      history := history + [HookCalled];
      hookCalled := true;
      waited := false;
      if !killable {
        history := history + [Joined];
        waited := true;
      }
    }
  }

  /**
   * Two shutdown requests in a row (say, KEYBOARD_INTERRUPT then SHUTDOWN) reach the job's
   * hook at most once: only the first does anything.
   */
  method ShutdownTwice(t: Task) returns (first: bool, second: bool)
    modifies t
    ensures t.requestedShutdown
    ensures second == false
    ensures first <==> !old(t.requestedShutdown)
    ensures t.history == old(t.history) + (if old(t.requestedShutdown) then []
                                           else [ShutdownRequested, HookCalled] + (if t.killable then [] else [Joined]))
  {
    var w1, w2;
    first, w1 := t.Shutdown();
    second, w2 := t.Shutdown();
  }

  /** A JSON value as decoded by `requests.Response.json()`. */
  datatype Json =
    | JNull
    | JBool(b: bool)
    | JNum(n: int)
    | JStr(s: string)
    | JList(items: seq<Json>)
    | JObject(fields: map<string, Json>)

  /** What the request to the hub's billboards endpoint produced. */
  datatype HubReply =
    | RequestFailed      // `requests.get(url).json()` raised (network error, invalid JSON, ...)
    | Body(json: Json)   // the decoded body

  /** `response.get("success", False) is True`. */
  predicate Succeeded(fields: map<string, Json>) {
    "success" in fields && fields["success"] == JBool(true)
  }

  /** `response.get("result", {})`. */
  function ResultOf(fields: map<string, Json>): Json {
    if "result" in fields then fields["result"] else JObject(map[])
  }

  const BillboardsKey: string := "billboards"

  /** `UpdateBillboardsTask`: refreshes the local billboards database from the hub. */
  class UpdateBillboardsTask {
    const task: Task
    /** the shell's updates-check database, written through `mark_updated` */
    const checks: Staleness.UpdatesCheckDb
    /** the local billboards database */
    var db: map<string, Json>

    constructor (bus: Events.EventBus, checks: Staleness.UpdatesCheckDb, db: map<string, Json>)
      requires bus.Valid()
      modifies bus
      ensures bus.Valid()
      ensures task.name == "billboards-updater" && !task.killable
      ensures !task.started && !task.finished && !task.requestedShutdown
      ensures this.checks == checks && this.db == db
    {
      task := new Task(bus, "billboards-updater", false);
      this.checks := checks;
      this.db := db;
    }

    /**
     * `execute()`. Whenever it returns normally the "billboards" key is marked as checked at
     * `now`: after a failed request, after an unsuccessful reply and after an update. The
     * database is cleared and refilled with the reply's `result` (default `{}`) only when the
     * reply's `success` is `true`; otherwise it is untouched. A body that is not a JSON object
     * makes `response.get` raise before anything is written; a `result` that is not an object
     * makes the refill raise after the clear.
     */
    method Execute(reply: HubReply, now: int) returns (outcome: ExecOutcome)
      modifies this, checks
      ensures outcome != Interrupted
      ensures outcome == Completed ==> checks.records == old(checks.records)[BillboardsKey := now]
      ensures outcome == Raised ==> checks.records == old(checks.records)
      ensures outcome == Raised <==> reply.Body? && (!reply.json.JObject? ||
                                       (Succeeded(reply.json.fields) && !ResultOf(reply.json.fields).JObject?))
      ensures db == (if reply.Body? && reply.json.JObject? && Succeeded(reply.json.fields) then
                       (if ResultOf(reply.json.fields).JObject? then ResultOf(reply.json.fields).fields else map[])
                     else old(db))
    {
      if reply.RequestFailed? {
        // mark as updated so we don't retry right away
        checks.MarkUpdated(BillboardsKey, None, now);
        return Completed;
      }
      if !reply.json.JObject? {
        return Raised;
      }
      var response := reply.json.fields;
      if !Succeeded(response) {
        checks.MarkUpdated(BillboardsKey, None, now);
        return Completed;
      }
      db := map[];
      var result := ResultOf(response);
      if !result.JObject? {
        return Raised;
      }
      db := result.fields;
      checks.MarkUpdated(BillboardsKey, None, now);
      outcome := Completed;
    }

    /** `run()` of this task: start, `execute()`, finish. */
    method Run(reply: HubReply, now: int) returns (propagates: bool)
      modifies this, checks, task
      ensures task.started && task.finished
      ensures !propagates ==> checks.records == old(checks.records)[BillboardsKey := now]
    {
      task.BeforeExecute();
      var outcome := Execute(reply, now);
      propagates := task.AfterExecute(outcome);
    }
  }

  /** `DebugInfo.name2versions`, the table of component versions shown in debug reports. */
  class DebugInfo {
    var name2versions: map<string, string>

    constructor (name2versions: map<string, string>)
      ensures this.name2versions == name2versions
    {
      this.name2versions := name2versions;
    }
  }

  /** What `dockertown.DockerClient().version()` produced. */
  datatype DockerReply =
    | DockerFailed                                  // creating the client or querying it raised
    | Versions(info: map<string, map<string, string>>)

  const ErrorValue: string := "(error)"

  /** The four lookups `versions[...][...]` all succeed. */
  predicate HasAllVersions(v: map<string, map<string, string>>) {
    "Client" in v && "Server" in v
    && "Version" in v["Client"] && "Version" in v["Server"]
    && "ApiVersion" in v["Client"] && "ApiVersion" in v["Server"]
  }

  /** The four keys of `name2versions` the Docker probe writes. */
  const ProbeKeys: set<string> := {"docker/client", "docker/server", "docker/client/api", "docker/server/api"}

  /**
   * Writing "(error)" under the four probe keys erases whatever a failed probe had already
   * written under them: the result depends only on the table before the probe.
   */
  function OverwriteProbeKeys(partial: map<string, string>, before: map<string, string>): (r: map<string, string>)
    requires before.Keys <= partial.Keys
    requires forall k :: k in partial && k !in ProbeKeys ==> k in before && partial[k] == before[k]
    ensures r == before["docker/client" := ErrorValue]["docker/server" := ErrorValue]
                       ["docker/client/api" := ErrorValue]["docker/server/api" := ErrorValue]
  {
    var r := partial["docker/client" := ErrorValue]["docker/server" := ErrorValue]
                    ["docker/client/api" := ErrorValue]["docker/server/api" := ErrorValue];
    assert r.Keys == (before["docker/client" := ErrorValue]["docker/server" := ErrorValue]
                       ["docker/client/api" := ErrorValue]["docker/server/api" := ErrorValue]).Keys;
    r
  }

  /** `CollectDockerVersionTask`: records the Docker client and server versions. */
  class CollectDockerVersionTask {
    const task: Task
    const debug: DebugInfo

    constructor (bus: Events.EventBus, debug: DebugInfo)
      requires bus.Valid()
      modifies bus
      ensures bus.Valid()
      ensures task.name == "docker-version-probe" && task.killable
      ensures !task.started && !task.finished && !task.requestedShutdown
      ensures this.debug == debug
    {
      task := new Task(bus, "docker-version-probe", true);
      this.debug := debug;
    }

    /**
     * `execute()`: the four `docker/...` entries get the reported versions when every lookup
     * succeeds; on any failure (including one after some entries were written) all four
     * are set to "(error)". Nothing escapes the bare `except`.
     */
    method Execute(reply: DockerReply)
      modifies debug
      ensures var ok := reply.Versions? && HasAllVersions(reply.info);
              debug.name2versions ==
                old(debug.name2versions)
                  ["docker/client" := if ok then reply.info["Client"]["Version"] else ErrorValue]
                  ["docker/server" := if ok then reply.info["Server"]["Version"] else ErrorValue]
                  ["docker/client/api" := if ok then reply.info["Client"]["ApiVersion"] else ErrorValue]
                  ["docker/server/api" := if ok then reply.info["Server"]["ApiVersion"] else ErrorValue]
    {
      var versions := debug.name2versions;
      var failed := false;
      if reply.DockerFailed? {
        failed := true;
      } else {
        var v := reply.info;
        if "Client" in v && "Version" in v["Client"] {
          versions := versions["docker/client" := v["Client"]["Version"]];
          if "Server" in v && "Version" in v["Server"] {
            versions := versions["docker/server" := v["Server"]["Version"]];
            if "ApiVersion" in v["Client"] {
              versions := versions["docker/client/api" := v["Client"]["ApiVersion"]];
              if "ApiVersion" in v["Server"] {
                versions := versions["docker/server/api" := v["Server"]["ApiVersion"]];
              } else {
                failed := true;
              }
            } else {
              failed := true;
            }
          } else {
            failed := true;
          }
        } else {
          failed := true;
        }
      }
      if failed {
        versions := OverwriteProbeKeys(versions, debug.name2versions);
      }
      debug.name2versions := versions;
    }
  }
}

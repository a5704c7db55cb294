/**
 * The staleness store of lib/dt_shell/shell.py (`needs_update`, `mark_updated`): a keyed
 * "last checked" timestamp table kept in the updates-check database. Wall-clock time is
 * an integer parameter `now`; the database is the map `records`.
 */
module Staleness {
  import opened Wrappers

  class UpdatesCheckDb {
    /** key -> time of the last check */
    var records: map<string, int>

    constructor (records: map<string, int>)
      ensures this.records == records
    {
      this.records := records;
    }

    /**
     * `needs_update(key, period, default)` at time `now`: with no record for the key the
     * answer is `default`; otherwise the key is stale exactly when strictly more than
     * `period` has elapsed since the recorded check.
     */
    function NeedsUpdate(key: string, period: int, default: bool, now: int): (stale: bool)
      reads this
      ensures key !in records ==> stale == default
      ensures key in records ==> (stale <==> now > records[key] + period)
    {
      if key !in records then default else now - records[key] > period
    }

    /** `mark_updated(key, when)`: record `when`, or `now` when no time is given, for this key only. */
    method MarkUpdated(key: string, when: Option<int>, now: int)
      modifies this
      ensures records == old(records)[key := when.GetOr(now)]
      ensures NeedsUpdate(key, 0, false, when.GetOr(now)) == false
    {
      records := records[key := if when.Some? then when.value else now];
    }
  }

  /**
   * After `mark_updated(key, t)`, a check of that key at any time up to `t + period` says
   * "fresh" and any later check says "stale" again, whatever the default; every other key
   * keeps its record.
   */
  method MarkThenCheck(db: UpdatesCheckDb, key: string, t: int, period: int, default: bool, later: int)
    modifies db
    ensures db.NeedsUpdate(key, period, default, later) <==> later > t + period
    ensures forall k :: k != key ==> (k in db.records <==> k in old(db.records))
    ensures forall k :: k != key && k in old(db.records) ==> db.records[k] == old(db.records)[k]
  {
    db.MarkUpdated(key, Some(t), later);
  }
}

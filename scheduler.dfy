/**
 * One tick of the updater loop (xrpbot.py, `updater_loop`): choose the
 * guilds to update, run the reconciliation for each, log an error that
 * escaped any of them, and always go on to the sleep.
 */
module Scheduler {
  import opened Wrappers
  import Reconciler

  datatype Guild = Guild(id: int, name: string)

  /** `client.get_guild(id)`: the first joined guild with that id, if any. */
  function GetGuild(joined: seq<Guild>, id: int): (g: Option<Guild>)
    ensures g.Some? ==> g.value in joined && g.value.id == id
    ensures g.None? <==> forall x :: x in joined ==> x.id != id
  {
    if joined == [] then None
    else if joined[0].id == id then Some(joined[0])
    else GetGuild(joined[1..], id)
  }

  /** Python truthiness of the optional configured guild id: set and not 0. */
  predicate Restricted(guildId: Option<int>) {
    guildId.Some? && guildId.value != 0
  }

  /**
   * The guilds updated this tick: only the configured guild when one is
   * configured (none at all when the bot has not joined it), every joined
   * guild otherwise.
   */
  function Targets(guildId: Option<int>, joined: seq<Guild>): (t: seq<Guild>)
    ensures forall g :: g in t ==> g in joined
    ensures Restricted(guildId) ==>
              |t| <= 1 &&
              (t == [] <==> forall x :: x in joined ==> x.id != guildId.value) &&
              (t != [] ==> t[0].id == guildId.value)
    ensures !Restricted(guildId) ==> t == joined
  {
    if Restricted(guildId) then
      match GetGuild(joined, guildId.value)
      case Some(g) => [g]
      case None => []
    else joined
  }

  /** One guild's reconciliation in a tick. */
  datatype Update = Update(guild: Guild, result: Reconciler.Reconciliation)

  /** What one tick did: the log lines, the reconciliations run, and the sleep. */
  datatype TickReport = TickReport(
    notFoundLogged: bool,      // "Configured GUILD_ID not found yet."
    noGuildsLogged: bool,      // "No guilds to update yet."
    updates: seq<Update>,
    errorLogged: bool,         // "Updater loop error: ..."
    slept: nat)

  /** The reconciliation of each target, in order. */
  function Fanout(targets: seq<Guild>, world: Guild -> Reconciler.World,
                  priceText: real -> string, changeText: real -> string): (us: seq<Update>)
    ensures |us| == |targets|
    ensures forall i :: 0 <= i < |us| ==>
              us[i].guild == targets[i] &&
              us[i].result == Reconciler.UpdateGuild(world(targets[i]), priceText, changeText)
  {
    seq(|targets|, i requires 0 <= i < |targets| =>
      Update(targets[i], Reconciler.UpdateGuild(world(targets[i]), priceText, changeText)))
  }

  predicate AnyRaised(us: seq<Update>) {
    exists i :: 0 <= i < |us| && us[i].result.raised
  }

  /**
   * The body of the updater loop with the configured guild id, the joined
   * guilds, what each guild's collaborators do, and the interval. An error
   * escaping a reconciliation is logged and the tick still reaches the sleep.
   */
  function Tick(guildId: Option<int>, joined: seq<Guild>, world: Guild -> Reconciler.World,
                priceText: real -> string, changeText: real -> string, interval: nat): (r: TickReport)
    ensures |r.updates| == |Targets(guildId, joined)|
    ensures forall i :: 0 <= i < |r.updates| ==>
              r.updates[i].guild == Targets(guildId, joined)[i] &&
              r.updates[i].result == Reconciler.UpdateGuild(world(r.updates[i].guild), priceText, changeText)
    ensures r.notFoundLogged <==> Restricted(guildId) && r.updates == []
    ensures r.noGuildsLogged <==> r.updates == []
    ensures r.errorLogged <==> exists u :: u in r.updates && u.result.raised
    ensures r.slept == interval
  {
    var notFound := Restricted(guildId) && GetGuild(joined, guildId.value).None?;
    var targets := Targets(guildId, joined);
    var updates := Fanout(targets, world, priceText, changeText);
    var error := AnyRaised(updates);
    assert error <==> exists u :: u in updates && u.result.raised by {
      if error {
        var i :| 0 <= i < |updates| && updates[i].result.raised;
        assert updates[i] in updates;
      }
    }
    TickReport(notFound, targets == [], updates, error, interval)
  }

  /** The price fetches made by the given reconciliations. */
  function TickFetches(us: seq<Update>): nat {
    if us == [] then 0 else Reconciler.FetchCount(us[0].result.effects) + TickFetches(us[1..])
  }

  lemma {:induction false} FetchesAtMostOneEach(us: seq<Update>)
    requires forall u :: u in us ==> Reconciler.FetchCount(u.result.effects) <= 1
    ensures TickFetches(us) <= |us|
    decreases |us|
  {
    if us != [] {
      assert us[0] in us;
      assert forall u :: u in us[1..] ==> u in us;
      FetchesAtMostOneEach(us[1..]);
    }
  }

  /**
   * Every reconciled guild fetches the price itself, at most once: a tick
   * makes at most as many fetches as it has targets, and none when the
   * configured guild has not been joined.
   */
  lemma FetchesPerTick(guildId: Option<int>, joined: seq<Guild>, world: Guild -> Reconciler.World,
                       priceText: real -> string, changeText: real -> string, interval: nat)
    ensures TickFetches(Tick(guildId, joined, world, priceText, changeText, interval).updates) <=
            |Targets(guildId, joined)|
  {
    var us := Tick(guildId, joined, world, priceText, changeText, interval).updates;
    forall u | u in us ensures Reconciler.FetchCount(u.result.effects) <= 1 {
      var i :| 0 <= i < |us| && us[i] == u;
    }
    FetchesAtMostOneEach(us);
  }
}

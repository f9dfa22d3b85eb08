/**
 * Per-guild reconciliation (xrpbot.py, `update_guild`): resolve the bot's own
 * member, check its nickname permissions, fetch the price, then edit the
 * nickname and set the presence independently. Every call into the chat
 * platform or the price fetcher is given as its outcome; the function returns
 * the effects performed, in order, and whether an exception left the call.
 */
module Reconciler {
  import opened Wrappers
  import PriceFetcher

  // ---------------------------------------------------------------------------
  // Display strings
  // ---------------------------------------------------------------------------

  /** The longest nickname the chat platform accepts. */
  const NickLimit: nat := 32

  const UpMarker: char := '\U{1F7E2}'     // green circle
  const DownMarker: char := '\U{1F534}'   // red circle

  /** The presence shown when the price could not be fetched. */
  const DegradedStatus: string := "API error"

  /** The audit-log reason given with every nickname edit. */
  const EditReason: string := "Auto price update"

  /** The sign marker: green for a non-negative 24 h change, red otherwise. */
  function Marker(change: real): char {
    if change >= 0.0 then UpMarker else DownMarker
  }

  function Min(a: nat, b: nat): nat {
    if a <= b then a else b
  }

  /**
   * `s[:limit]` when `s` is longer than `limit`: the result is the prefix of
   * `s` of length min(|s|, limit).
   */
  function Truncate(s: string, limit: nat): (r: string)
    ensures |r| == Min(|s|, limit)
    ensures r == s[..|r|]
  {
    if |s| > limit then s[..limit] else s
  }

  /** The nickname before truncation: "$", the rendered price, a space, the marker. */
  function RawNickname(priceText: string, change: real): string {
    "$" + priceText + " " + [Marker(change)]
  }

  /**
   * The nickname set for a price (rendered with three decimals by the
   * caller) and a 24 h change. It never exceeds the limit; when the untruncated
   * form fits it is kept whole and ends in the green marker exactly when the
   * change is non-negative; otherwise it is that form's first 32 characters.
   */
  function Nickname(priceText: string, change: real): (r: string)
    ensures 0 < |r| <= NickLimit && r[0] == '$'
    ensures |RawNickname(priceText, change)| <= NickLimit ==>
              r == RawNickname(priceText, change) &&
              (r[|r| - 1] == UpMarker <==> change >= 0.0)
    ensures |RawNickname(priceText, change)| > NickLimit ==>
              |r| == NickLimit && r == RawNickname(priceText, change)[..NickLimit]
  {
    Truncate(RawNickname(priceText, change), NickLimit)
  }

  /** The presence text: "24h " and the change rendered with sign and two decimals. */
  function StatusText(changeText: string): string {
    "24h " + changeText + "%"
  }

  // ---------------------------------------------------------------------------
  // The reconciliation
  // ---------------------------------------------------------------------------

  datatype Perms = Perms(changeNickname: bool, manageNicknames: bool)

  /** Outcome of `guild.fetch_member`, used when the member is not cached. */
  datatype Lookup =
    | Resolved(perms: Perms)
    | HttpFailure        // discord.HTTPException: logged, the guild is skipped
    | LookupRaised       // any other exception: leaves update_guild

  /** Outcome of `me.edit(nick=..., reason=...)`. */
  datatype EditOutcome =
    | Edited
    | Forbidden          // discord.Forbidden: logged at info
    | HttpFailed         // other discord.HTTPException: logged as a warning
    | EditRaised         // any other exception: leaves update_guild

  /** What the chat platform and the price fetcher do when called for one guild. */
  datatype World = World(
    cachedMe: Option<Perms>,               // guild.me, when the member is cached
    lookup: Lookup,                        // used only when guild.me is absent
    sessionReady: bool,                    // the shared HTTP session exists
    fetch: PriceFetcher.FetchResult,       // what get_price_data returns or raises
    edit: EditOutcome,
    presenceSucceeds: bool)                // whether change_presence raises

  datatype Severity = Debug | Info | Warning

  datatype LogLine =
    | MemberUnresolved
    | MissingPermission
    | PriceFetchFailed
    | NickForbidden
    | NickHttpError
    | PresenceFailed
    | Updated(nick: string)

  /** The calls made and the lines logged, in order. */
  datatype Effect =
    | FetchMember
    | FetchPrice
    | EditNick(nick: string, reason: string)
    | SetPresence(text: string)
    | Log(level: Severity, line: LogLine)

  /** The effects of one call, and whether an exception left it. */
  datatype Reconciliation = Reconciliation(effects: seq<Effect>, raised: bool)

  function FetchCount(effects: seq<Effect>): nat {
    if effects == [] then 0 else (if effects[0].FetchPrice? then 1 else 0) + FetchCount(effects[1..])
  }

  /** The nicknames written, in order. */
  function Nicks(effects: seq<Effect>): seq<string> {
    if effects == [] then []
    else (if effects[0].EditNick? then [effects[0].nick] else []) + Nicks(effects[1..])
  }

  /** The presence texts set, in order. */
  function Presences(effects: seq<Effect>): seq<string> {
    if effects == [] then []
    else (if effects[0].SetPresence? then [effects[0].text] else []) + Presences(effects[1..])
  }

  /** Counting fetches distributes over concatenation. */
  lemma {:induction false} FetchCountAppend(a: seq<Effect>, b: seq<Effect>)
    ensures FetchCount(a + b) == FetchCount(a) + FetchCount(b)
    decreases |a|
  {
    if a == [] {
      assert a + b == b;
    } else {
      assert (a + b)[0] == a[0];
      assert (a + b)[1..] == a[1..] + b;
      FetchCountAppend(a[1..], b);
    }
  }

  /** The nicknames written by two runs are those of the first, then those of the second. */
  lemma {:induction false} NicksAppend(a: seq<Effect>, b: seq<Effect>)
    ensures Nicks(a + b) == Nicks(a) + Nicks(b)
    decreases |a|
  {
    if a == [] {
      assert a + b == b;
    } else {
      assert (a + b)[0] == a[0];
      assert (a + b)[1..] == a[1..] + b;
      NicksAppend(a[1..], b);
    }
  }

  /** The presences set by two runs are those of the first, then those of the second. */
  lemma {:induction false} PresencesAppend(a: seq<Effect>, b: seq<Effect>)
    ensures Presences(a + b) == Presences(a) + Presences(b)
    decreases |a|
  {
    if a == [] {
      assert a + b == b;
    } else {
      assert (a + b)[0] == a[0];
      assert (a + b)[1..] == a[1..] + b;
      PresencesAppend(a[1..], b);
    }
  }

  /** Nothing was fetched and nothing on the chat platform was changed. */
  predicate Untouched(effects: seq<Effect>) {
    FetchCount(effects) == 0 && Nicks(effects) == [] && Presences(effects) == []
  }

  /** Every line logged is at informational severity or below. */
  predicate QuietLogs(effects: seq<Effect>) {
    forall e :: e in effects && e.Log? ==> e.level != Warning
  }

  /** The member's permissions, or None when it could not be resolved. */
  function MemberPerms(w: World): Option<Perms> {
    if w.cachedMe.Some? then w.cachedMe
    else if w.lookup.Resolved? then Some(w.lookup.perms)
    else None
  }

  predicate MayRename(p: Perms) {
    p.changeNickname || p.manageNicknames
  }

  /** The effects `a` followed by the effect `e`. */
  function Push(a: seq<Effect>, e: Effect): (r: seq<Effect>)
    ensures r == a + [e]
    ensures FetchCount(r) == FetchCount(a) + (if e.FetchPrice? then 1 else 0)
    ensures Nicks(r) == Nicks(a) + (if e.EditNick? then [e.nick] else [])
    ensures Presences(r) == Presences(a) + (if e.SetPresence? then [e.text] else [])
  {
    FetchCountAppend(a, [e]);
    NicksAppend(a, [e]);
    PresencesAppend(a, [e]);
    assert [e][1..] == [];
    a + [e]
  }

  /**
   * The fetch-failure path (xrpbot.py lines 100-109): the fetch when a session
   * exists, its warning and the degraded presence, whose failure is swallowed.
   */
  function Degraded(start: seq<Effect>, sessionReady: bool): (effects: seq<Effect>)
    ensures FetchCount(effects) == FetchCount(start) + (if sessionReady then 1 else 0)
    ensures Nicks(effects) == Nicks(start)
    ensures Presences(effects) == Presences(start) + [DegradedStatus]
  {
    var fetched := if sessionReady then Push(start, FetchPrice) else start;
    Push(Push(fetched, Log(Warning, PriceFetchFailed)), SetPresence(DegradedStatus))
  }

  /**
   * The apply path (xrpbot.py lines 116-128): the nickname edit and the log
   * line its handled outcome calls for, then the presence whatever that
   * outcome was; an unhandled edit error leaves before the presence.
   */
  function Apply(start: seq<Effect>, nick: string, edit: EditOutcome, status: string,
                 presenceSucceeds: bool): (r: Reconciliation)
    ensures FetchCount(r.effects) == FetchCount(start)
    ensures Nicks(r.effects) == Nicks(start) + [nick]
    ensures r.raised <==> edit.EditRaised?
    ensures Presences(r.effects) == Presences(start) + (if r.raised then [] else [status])
  {
    var edited := Push(start, EditNick(nick, EditReason));
    if edit.EditRaised? then
      Reconciliation(edited, true)
    else
      Reconciliation(Present(Handle(edited, edit), nick, status, presenceSucceeds), false)
  }

  /** The log line a handled edit outcome calls for (xrpbot.py lines 116-121); nothing else is written. */
  function Handle(edited: seq<Effect>, edit: EditOutcome): (r: seq<Effect>)
    // a refused edit is reported at info, any other HTTP failure as a warning, success not at all
    ensures edit.Forbidden? ==> r == edited + [Log(Info, NickForbidden)]
    ensures edit.HttpFailed? ==> r == edited + [Log(Warning, NickHttpError)]
    ensures edit.Edited? ==> r == edited
    ensures FetchCount(r) == FetchCount(edited)
    ensures Nicks(r) == Nicks(edited)
    ensures Presences(r) == Presences(edited)
  {
    match edit
    case Forbidden => Push(edited, Log(Info, NickForbidden))
    case HttpFailed => Push(edited, Log(Warning, NickHttpError))
    case _ => edited
  }

  /** The presence write, its swallowed failure and the closing log line (xrpbot.py lines 123-128). */
  function Present(handled: seq<Effect>, nick: string, status: string, presenceSucceeds: bool): (r: seq<Effect>)
    ensures FetchCount(r) == FetchCount(handled)
    ensures Nicks(r) == Nicks(handled)
    ensures Presences(r) == Presences(handled) + [status]
  {
    var presented := Push(handled, SetPresence(status));
    var reported := if presenceSucceeds then presented else Push(presented, Log(Debug, PresenceFailed));
    Push(reported, Log(Info, Updated(nick)))
  }

  /** `update_guild(guild)` with the collaborators' outcomes `w`. */
  function UpdateGuild(w: World, priceText: real -> string, changeText: real -> string): (r: Reconciliation)
    // an unresolvable member ends the call before anything is fetched or changed
    ensures MemberPerms(w).None? ==> Untouched(r.effects) && (r.raised <==> w.lookup.LookupRaised?)
    // without either nickname permission nothing is fetched or changed, and nothing above info is logged
    ensures MemberPerms(w).Some? && !MayRename(MemberPerms(w).value) ==>
              Untouched(r.effects) && QuietLogs(r.effects) && !r.raised
    // the price is fetched at most once, the nickname and the presence written at most once
    ensures FetchCount(r.effects) <= 1 && |Nicks(r.effects)| <= 1 && |Presences(r.effects)| <= 1
    // a fetch that does not yield a price leads only to the degraded presence
    ensures MemberPerms(w).Some? && MayRename(MemberPerms(w).value) &&
            (!w.sessionReady || !w.fetch.Price?) ==>
              Nicks(r.effects) == [] && Presences(r.effects) == [DegradedStatus] && !r.raised
    // with a price, the nickname is set and the presence follows whatever the edit's handled outcome
    ensures MemberPerms(w).Some? && MayRename(MemberPerms(w).value) &&
            w.sessionReady && w.fetch.Price? ==>
              FetchCount(r.effects) == 1 &&
              Nicks(r.effects) == [Nickname(priceText(w.fetch.price), w.fetch.change)] &&
              (r.raised <==> w.edit.EditRaised?) &&
              (!r.raised ==> Presences(r.effects) == [StatusText(changeText(w.fetch.change))]) &&
              (r.raised ==> Presences(r.effects) == [])
    // every nickname written fits the limit
    ensures forall n :: n in Nicks(r.effects) ==> |n| <= NickLimit
  {
    var start := if w.cachedMe.Some? then [] else Push([], FetchMember);
    if w.cachedMe.None? && w.lookup.HttpFailure? then
      Reconciliation(Push(start, Log(Warning, MemberUnresolved)), false)
    else if w.cachedMe.None? && w.lookup.LookupRaised? then
      Reconciliation(start, true)
    else
      var perms := if w.cachedMe.Some? then w.cachedMe.value else w.lookup.perms;
      if !MayRename(perms) then
        Reconciliation(Push(start, Log(Info, MissingPermission)), false)
      else if !w.sessionReady || !w.fetch.Price? then
        // a missing session fails the assertion before the fetch; both are caught alike
        Reconciliation(Degraded(start, w.sessionReady), false)
      else
        var change := w.fetch.change;
        Apply(Push(start, FetchPrice), Nickname(priceText(w.fetch.price), change), w.edit,
              StatusText(changeText(change)), w.presenceSucceeds)
  }
}

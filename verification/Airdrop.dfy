/**
  The airdrop pallet (`pallets/airdrop/src/lib.rs`): events that move through their lifecycle under
  authorized calls, one pot of held prize funds, and a time index of pending actions.
*/
module Airdrop {
  import opened Prelude
  import opened Ordered
  import opened CyclicDraw

  type EventId = nat
  type Slot = nat
  type AssetId = nat

  const MAX_WINNERS: nat := 10_000
  const PERMILL_ONE: nat := 1_000_000

  datatype Entry = ByAlias(alias: nat) | ByAccount(account: nat)

  datatype Info = Info(
    asset: AssetId, amount: nat, maxWinners: nat, winnerCap: nat,
    registrationStarts: nat, drawTime: nat, endTime: nat)

  datatype Status =
    | Scheduled
    | Registering(total: nat)
    | DrawWinners(total: nat, effective: nat, added: nat, from: Slot)
    | Claiming(total: nat, effective: nat, claimed: nat)
    | ClearingRegistrations(total: nat, effective: nat, claimed: nat, cleaned: nat)
    | ClearingWinners(total: nat, effective: nat, claimed: nat, cleaned: nat)
    | Finalizing(effective: nat, claimed: nat)

  datatype Event = Event(info: Info, status: Status)

  datatype Config = Config(drawLimit: nat, clearLimit: nat, maxBalance: nat, minBalance: map<AssetId, nat>)

  /** `integrity_test`: both batch limits are positive. */
  predicate Integrity(cfg: Config) {
    cfg.drawLimit > 0 && cfg.clearLimit > 0
  }

  datatype State = State(
    events: map<EventId, Event>,
    schedule: set<(nat, EventId)>,
    registrations: map<EventId, map<Slot, Entry>>,
    winners: map<EventId, map<Entry, Slot>>,
    entropy: map<EventId, Slot>,
    held: map<AssetId, nat>,
    supported: map<AssetId, nat>)

  datatype Call =
    | Schedule(id: EventId, info: Info, holdOk: bool)
    | RemoveScheduled(id: EventId)
    | Cancel(id: EventId)
    | EnableAsset(asset: AssetId, transferOk: bool)
    | DisableAsset(asset: AssetId, transferOk: bool)
    | Register(id: EventId, slot: Slot, entry: Entry)
    | Claim(id: EventId, entry: Entry, transferOk: bool)
    | StartRegistration(id: EventId)
    | CloseRegistration(id: EventId, randomness: Option<Slot>)
    | DrawBatch(id: EventId)
    | CloseDrawing(id: EventId)
    | CloseClaiming(id: EventId)
    | CleanRegistrations(id: EventId, doomed: set<Slot>)
    | CleanWinners(id: EventId, gone: set<Entry>)
    | Finalize(id: EventId)

  // ---------------------------------------------------------------------------------------------
  // Reading the storage maps
  // ---------------------------------------------------------------------------------------------

  function RegsOf(s: State, id: EventId): map<Slot, Entry> {
    if id in s.registrations then s.registrations[id] else map[]
  }

  function WinnersOf(s: State, id: EventId): map<Entry, Slot> {
    if id in s.winners then s.winners[id] else map[]
  }

  function EntropyOf(s: State, id: EventId): Option<Slot> {
    if id in s.entropy then Some(s.entropy[id]) else None
  }

  function Balance(held: map<AssetId, nat>, a: AssetId): nat {
    if a in held then held[a] else 0
  }

  /** `next_action_scheduled_at`. */
  function NextAction(status: Status, info: Info): nat {
    match status
    case Scheduled => info.registrationStarts
    case Registering(_) => info.drawTime
    case DrawWinners(_, _, _, _) => info.drawTime
    case Claiming(_, _, _) => info.endTime
    case ClearingRegistrations(_, _, _, _) => info.endTime
    case ClearingWinners(_, _, _, _) => info.endTime
    case Finalizing(_, _) => info.endTime
  }

  // ---------------------------------------------------------------------------------------------
  // Writing them
  // ---------------------------------------------------------------------------------------------

  /** A status change that leaves the action's time alone. */
  function SetStatus(s: State, id: EventId, status: Status): State
    requires id in s.events
  {
    s.(events := s.events[id := Event(s.events[id].info, status)])
  }

  function Reschedule(schedule: set<(nat, EventId)>, id: EventId, was: nat, will: nat): set<(nat, EventId)> {
    if was != will then schedule - {(was, id)} + {(will, id)} else schedule
  }

  /** `transition`: change the status and move the schedule entry if its time changes. */
  function Transition(s: State, id: EventId, status: Status): State
    requires id in s.events
  {
    var e := s.events[id];
    s.(events := s.events[id := Event(e.info, status)],
       schedule := Reschedule(s.schedule, id, NextAction(e.status, e.info), NextAction(status, e.info)))
  }

  /** `release_remaining_prizes`: best effort, so it releases no more than is held. */
  function Release(cfg: Config, held: map<AssetId, nat>, info: Info, count: nat): map<AssetId, nat> {
    if count == 0 then held
    else
      var wanted := SatMul(info.amount, count, cfg.maxBalance);
      held[info.asset := Balance(held, info.asset) - Min(Balance(held, info.asset), wanted)]
  }

  /** Drop the event and its schedule entry. */
  function Drop(s: State, id: EventId): State
    requires id in s.events
  {
    var e := s.events[id];
    s.(events := s.events - {id}, schedule := s.schedule - {(NextAction(e.status, e.info), id)})
  }

  /** `refund_and_drop_event`. */
  function RefundAndDrop(cfg: Config, s: State, id: EventId): State
    requires id in s.events
  {
    var info := s.events[id].info;
    Drop(s.(held := Release(cfg, s.held, info, info.maxWinners)), id)
  }

  // ---------------------------------------------------------------------------------------------
  // The calls: `None` is a refused or failed call
  // ---------------------------------------------------------------------------------------------

  predicate Schedulable(cfg: Config, s: State, id: EventId, info: Info) {
    && 0 < info.maxWinners <= MAX_WINNERS
    && info.registrationStarts < info.drawTime < info.endTime
    && info.asset in s.supported
    && info.amount >= Balance(cfg.minBalance, info.asset)
    && id !in s.events
    && info.amount * info.maxWinners <= cfg.maxBalance
  }

  /** `do_schedule`; a `Permill` is at most one million. */
  function ScheduleSpec(cfg: Config, s: State, id: EventId, info: Info, holdOk: bool): Option<State> {
    if !Schedulable(cfg, s, id, info) || info.winnerCap > PERMILL_ONE || !holdOk then None
    else Some(s.(
      events := s.events[id := Event(info, Scheduled)],
      schedule := s.schedule + {(info.registrationStarts, id)},
      held := s.held[info.asset := Balance(s.held, info.asset) + info.amount * info.maxWinners]))
  }

  function RemoveScheduledSpec(cfg: Config, s: State, id: EventId): Option<State> {
    if id in s.events && s.events[id].status.Scheduled? then Some(RefundAndDrop(cfg, s, id)) else None
  }

  /** `do_cancel`. */
  function CancelSpec(cfg: Config, s: State, id: EventId): Option<State> {
    if id !in s.events then Some(s)
    else
      var info := s.events[id].info;
      match s.events[id].status
      case Scheduled => Some(RefundAndDrop(cfg, s, id))
      case Registering(total) =>
        Some(Transition(s.(held := Release(cfg, s.held, info, info.maxWinners)), id, ClearingRegistrations(total, 0, 0, 0)))
      case DrawWinners(total, effective, _, _) => Some(Transition(s, id, ClearingRegistrations(total, effective, 0, 0)))
      case Claiming(total, effective, claimed) => Some(Transition(s, id, ClearingRegistrations(total, effective, claimed, 0)))
      case _ => Some(s)
  }

  function EnableSpec(cfg: Config, s: State, asset: AssetId, transferOk: bool): Option<State> {
    if asset in s.supported || !transferOk then None
    else Some(s.(supported := s.supported[asset := Balance(cfg.minBalance, asset)]))
  }

  function DisableSpec(s: State, asset: AssetId, transferOk: bool): Option<State> {
    if asset !in s.supported || !transferOk then None
    else Some(s.(supported := s.supported - {asset}))
  }

  /** `register_slot`. */
  function RegisterSpec(s: State, id: EventId, slot: Slot, entry: Entry): Option<State> {
    if id !in s.events || !s.events[id].status.Registering? then None
    else
      var total := s.events[id].status.total;
      if slot in RegsOf(s, id) || total == U32_MAX then None
      else Some(SetStatus(s.(registrations := s.registrations[id := RegsOf(s, id)[slot := entry]]), id, Registering(total + 1)))
  }

  /** `do_claim`. */
  function ClaimSpec(s: State, now: nat, id: EventId, entry: Entry, transferOk: bool): Option<State> {
    if id !in s.events || !s.events[id].status.Claiming? then None
    else
      var info := s.events[id].info;
      var Claiming(total, effective, claimed) := s.events[id].status;
      if now >= info.endTime || info.asset !in s.supported || entry !in WinnersOf(s, id) then None
      else if Balance(s.held, info.asset) < info.amount || !transferOk then None
      else Some(SetStatus(s.(
        held := s.held[info.asset := Balance(s.held, info.asset) - info.amount],
        winners := s.winners[id := WinnersOf(s, id) - {entry}]), id,
        Claiming(total, effective, SatAdd(claimed, 1, U32_MAX))))
  }

  function StartSpec(s: State, now: nat, id: EventId): Option<State> {
    if id !in s.events || !s.events[id].status.Scheduled? || now < s.events[id].info.registrationStarts then None
    else Some(Transition(s, id, Registering(0)))
  }

  /** Winners the draw will pick: at most the cap's share of the participants, and at least one. */
  function EffectiveWinners(info: Info, total: nat): nat {
    Max(Min(info.maxWinners, info.winnerCap * total / PERMILL_ONE), 1)
  }

  /** `close_registration_authorized`. */
  function CloseRegistrationSpec(cfg: Config, s: State, now: nat, id: EventId, randomness: Option<Slot>): Option<State> {
    if id !in s.events || !s.events[id].status.Registering? || now < s.events[id].info.drawTime then None
    else
      var info := s.events[id].info;
      var total := s.events[id].status.total;
      if total == 0 then Some(RefundAndDrop(cfg, s, id))
      else if randomness.None? then Some(s)
      else
        var target := randomness.value;
        var effective := EffectiveWinners(info, total);
        Some(Transition(
          s.(held := Release(cfg, s.held, info, SatSub(info.maxWinners, effective)), entropy := s.entropy[id := target]),
          id, DrawWinners(total, effective, 0, target)))
  }

  /** The draw loop's inserts, in order; only registered slots are ever visited. */
  function AddWinners(winners: map<Entry, Slot>, regs: map<Slot, Entry>, slots: seq<Slot>): map<Entry, Slot>
    decreases |slots|
  {
    if slots == [] then winners
    else
      var last := slots[|slots| - 1];
      var before := AddWinners(winners, regs, slots[..|slots| - 1]);
      if last in regs then before[regs[last] := last] else before
  }

  /** The slots one batch visits: after the cursor in ascending order, then from the start again. */
  function NextSlots(regs: map<Slot, Entry>, from: Slot, k: nat): seq<Slot> {
    Batch(SortedKeys(regs.Keys), from, k)
  }

  /** `draw_winners_authorized`. */
  function DrawSpec(cfg: Config, s: State, id: EventId): Option<State> {
    if id !in s.events || !s.events[id].status.DrawWinners? then None
    else
      var DrawWinners(total, effective, added, from) := s.events[id].status;
      var regs := RegsOf(s, id);
      var batch := NextSlots(regs, from, Min(SatSub(effective, added), cfg.drawLimit));
      Some(SetStatus(s.(winners := s.winners[id := AddWinners(WinnersOf(s, id), regs, batch)]), id,
        DrawWinners(total, effective, SatAdd(added, |batch|, U32_MAX), Advance(batch, from))))
  }

  function CloseDrawingSpec(s: State, id: EventId): Option<State> {
    if id !in s.events || !s.events[id].status.DrawWinners? || s.events[id].status.added != s.events[id].status.effective then None
    else Some(Transition(s, id, Claiming(s.events[id].status.total, s.events[id].status.effective, 0)))
  }

  function CloseClaimingSpec(s: State, now: nat, id: EventId): Option<State> {
    if id !in s.events || !s.events[id].status.Claiming? || now < s.events[id].info.endTime then None
    else
      var Claiming(total, effective, claimed) := s.events[id].status;
      Some(Transition(s, id, ClearingRegistrations(total, effective, claimed, 0)))
  }

  /** `clear_prefix` with a limit removes that many entries, or all when there are fewer. */
  predicate Clears<K>(keys: set<K>, limit: nat, batch: set<K>) {
    batch <= keys && |batch| == Min(limit, |keys|)
  }

  /** The next phase once the prefix is empty; otherwise the same phase with `n` more entries cleaned. */
  function AfterRegistrations(status: Status, rest: map<Slot, Entry>, n: nat): Status
    requires status.ClearingRegistrations?
  {
    var ClearingRegistrations(total, effective, claimed, cleaned) := status;
    if rest == map[] then ClearingWinners(total, effective, claimed, 0)
    else ClearingRegistrations(total, effective, claimed, SatAdd(cleaned, n, U32_MAX))
  }

  function AfterWinners(status: Status, rest: map<Entry, Slot>, n: nat): Status
    requires status.ClearingWinners?
  {
    var ClearingWinners(total, effective, claimed, cleaned) := status;
    if rest == map[] then Finalizing(effective, claimed)
    else ClearingWinners(total, effective, claimed, SatAdd(cleaned, n, U32_MAX))
  }

  /** `clean_up_registrations_inner`; all its statuses are due at the end time, so no entry moves. */
  function CleanRegistrationsSpec(cfg: Config, s: State, id: EventId, doomed: set<Slot>): Option<State> {
    if id !in s.events || !s.events[id].status.ClearingRegistrations? || !Clears(RegsOf(s, id).Keys, cfg.clearLimit, doomed) then None
    else
      var rest := RegsOf(s, id) - doomed;
      Some(SetStatus(s.(registrations := s.registrations[id := rest]), id, AfterRegistrations(s.events[id].status, rest, |doomed|)))
  }

  /** `clean_up_winners_inner`. */
  function CleanWinnersSpec(cfg: Config, s: State, id: EventId, gone: set<Entry>): Option<State> {
    if id !in s.events || !s.events[id].status.ClearingWinners? || !Clears(WinnersOf(s, id).Keys, cfg.clearLimit, gone) then None
    else
      var rest := WinnersOf(s, id) - gone;
      Some(SetStatus(s.(winners := s.winners[id := rest]), id, AfterWinners(s.events[id].status, rest, |gone|)))
  }

  /** `finalize_authorized`. */
  function FinalizeSpec(cfg: Config, s: State, id: EventId): Option<State> {
    if id !in s.events || !s.events[id].status.Finalizing? then None
    else
      var e := s.events[id];
      var t := s.(held := Release(cfg, s.held, e.info, SatSub(e.status.effective, e.status.claimed)), entropy := s.entropy - {id});
      Some(Drop(t, id))
  }

  function Outcome(cfg: Config, s: State, now: nat, call: Call): Option<State> {
    match call
    case Schedule(id, info, holdOk) => ScheduleSpec(cfg, s, id, info, holdOk)
    case RemoveScheduled(id) => RemoveScheduledSpec(cfg, s, id)
    case Cancel(id) => CancelSpec(cfg, s, id)
    case EnableAsset(asset, ok) => EnableSpec(cfg, s, asset, ok)
    case DisableAsset(asset, ok) => DisableSpec(s, asset, ok)
    case Register(id, slot, entry) => RegisterSpec(s, id, slot, entry)
    case Claim(id, entry, ok) => ClaimSpec(s, now, id, entry, ok)
    case StartRegistration(id) => StartSpec(s, now, id)
    case CloseRegistration(id, randomness) => CloseRegistrationSpec(cfg, s, now, id, randomness)
    case DrawBatch(id) => DrawSpec(cfg, s, id)
    case CloseDrawing(id) => CloseDrawingSpec(s, id)
    case CloseClaiming(id) => CloseClaimingSpec(s, now, id)
    case CleanRegistrations(id, doomed) => CleanRegistrationsSpec(cfg, s, id, doomed)
    case CleanWinners(id, gone) => CleanWinnersSpec(cfg, s, id, gone)
    case Finalize(id) => FinalizeSpec(cfg, s, id)
  }

  /** A failed call rolls back. */
  function Apply(cfg: Config, s: State, step: (nat, Call)): State {
    var r := Outcome(cfg, s, step.0, step.1);
    if r.Some? then r.value else s
  }

  function Run(cfg: Config, s: State, steps: seq<(nat, Call)>): State
    decreases |steps|
  {
    if steps == [] then s else Run(cfg, Apply(cfg, s, steps[0]), steps[1..])
  }
}

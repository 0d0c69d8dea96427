/**
 The change monitor: commit the pending alarm, then decide which change
 events to post to subscribers, gated by the monitor and archive deadbands.
 */
module PidMonitor {
  import opened AlarmCodes
  import opened PidRecords
  import PidAlarm

  /** The record fields events are posted on. */
  datatype Field = Stat | Sevr | Val | Cval | Out

  /** Event mask bits: DBE_VALUE, DBE_LOG (archive) and DBE_ALARM. */
  datatype Dbe = DbeValue | DbeLog | DbeAlarm

  /** What a scan emits: an event posted on a field with a mask, or the
      processing of the record the forward link names. */
  datatype Event = Post(field: Field, mask: set<Dbe>) | ScanForward

  /** The event is a post on field `f`. */
  predicate IsPostOn(e: Event, f: Field)
  {
    e.Post? && e.field == f
  }

  /** How many events are posted on field `f`. */
  function Posts(events: seq<Event>, f: Field): nat
  {
    if |events| == 0 then 0
    else (if IsPostOn(events[0], f) then 1 else 0) + Posts(events[1..], f)
  }

  /** The union of the masks posted on field `f`. */
  function MaskFor(events: seq<Event>, f: Field): set<Dbe>
  {
    if |events| == 0 then {}
    else (if IsPostOn(events[0], f) then events[0].mask else {}) + MaskFor(events[1..], f)
  }

  lemma PostsAppend(a: seq<Event>, b: seq<Event>, f: Field)
    ensures Posts(a + b, f) == Posts(a, f) + Posts(b, f)
    ensures MaskFor(a + b, f) == MaskFor(a, f) + MaskFor(b, f)
  {
    if |a| > 0 {
      assert (a + b)[1..] == a[1..] + b;
      PostsAppend(a[1..], b, f);
    } else {
      assert a + b == b;
    }
  }

  function PostIf(c: bool, f: Field, mask: set<Dbe>): (ev: seq<Event>)
    ensures forall g :: Posts(ev, g) == (if c && f == g then 1 else 0)
    ensures forall g :: MaskFor(ev, g) == (if c && f == g then mask else {})
  {
    if c then [Post(f, mask)] else []
  }

  lemma PostsOfFive(a: seq<Event>, b: seq<Event>, c: seq<Event>, d: seq<Event>, e: seq<Event>, f: Field)
    ensures Posts(a + b + c + d + e, f) == Posts(a, f) + Posts(b, f) + Posts(c, f) + Posts(d, f) + Posts(e, f)
    ensures MaskFor(a + b + c + d + e, f) == MaskFor(a, f) + MaskFor(b, f) + MaskFor(c, f) + MaskFor(d, f) + MaskFor(e, f)
  {
    PostsAppend(a + b + c + d, e, f);
    PostsAppend(a + b + c, d, f);
    PostsAppend(a + b, c, f);
    PostsAppend(a, b, f);
  }

  /** The committed alarm differs from the pending one. */
  predicate AlarmChanged(r: PidRecord)
  {
    r.stat != r.nsta || r.sevr != r.nsev
  }

  /** The value has left the monitor deadband around the last monitored value. */
  predicate ValueMoved(r: PidRecord)
  {
    PidAlarm.Abs(r.mlst - r.val) > r.mdel
  }

  /** The value has dropped below the last archived value by more than the
      archive deadband. The difference is clamped at 0, so with a non-negative
      deadband a rise does not count; a negative deadband counts every scan. */
  predicate ArchiveMoved(r: PidRecord)
  {
    (if r.alst - r.val < 0.0 then 0.0 else r.alst - r.val) > r.adel
  }

  datatype Monitored = Monitored(rec: PidRecord, events: seq<Event>)

  /** The mask for the value field: DBE_ALARM, DBE_VALUE and DBE_LOG, each for its own reason. */
  function ValueMask(r: PidRecord): (mask: set<Dbe>)
    ensures DbeAlarm in mask <==> AlarmChanged(r)
    ensures DbeValue in mask <==> ValueMoved(r)
    ensures DbeLog in mask <==> ArchiveMoved(r)
  {
    (if AlarmChanged(r) then {DbeAlarm} else {})
    + (if ValueMoved(r) then {DbeValue} else {})
    + (if ArchiveMoved(r) then {DbeLog} else {})
  }

  /** The events posted to subscribers, in the order monitor posts them:
      status and severity when the alarm changed, the value when its mask is
      not empty, then the controlled value and the output when they changed. */
  function Emit(alarmed: bool, mask: set<Dbe>, cvalChanged: bool, outChanged: bool): seq<Event>
  {
    PostIf(alarmed, Stat, {DbeValue}) + PostIf(alarmed, Sevr, {DbeValue}) + PostIf(mask != {}, Val, mask)
    + PostIf(cvalChanged, Cval, {DbeValue}) + PostIf(outChanged, Out, {DbeValue})
  }

  /** What `Emit` posts on each field. */
  lemma EmitPosts(alarmed: bool, mask: set<Dbe>, cvalChanged: bool, outChanged: bool, f: Field)
    ensures var ev := Emit(alarmed, mask, cvalChanged, outChanged);
      match f
      case Stat => Posts(ev, f) == (if alarmed then 1 else 0) && MaskFor(ev, f) == (if alarmed then {DbeValue} else {})
      case Sevr => Posts(ev, f) == (if alarmed then 1 else 0) && MaskFor(ev, f) == (if alarmed then {DbeValue} else {})
      case Val => Posts(ev, f) == (if mask != {} then 1 else 0) && MaskFor(ev, f) == mask
      case Cval => Posts(ev, f) == (if cvalChanged then 1 else 0) && MaskFor(ev, f) == (if cvalChanged then {DbeValue} else {})
      case Out => Posts(ev, f) == (if outChanged then 1 else 0) && MaskFor(ev, f) == (if outChanged then {DbeValue} else {})
  {
    PostsOfFive(PostIf(alarmed, Stat, {DbeValue}), PostIf(alarmed, Sevr, {DbeValue}), PostIf(mask != {}, Val, mask),
                PostIf(cvalChanged, Cval, {DbeValue}), PostIf(outChanged, Out, {DbeValue}), f);
  }

  /** The position of a field in the order monitor posts on it. */
  function Rank(f: Field): nat
  {
    match f
    case Stat => 0
    case Sevr => 1
    case Val => 2
    case Cval => 3
    case Out => 4
  }

  /** Posts appear in monitor's field order: status, severity, value,
      controlled value, output. */
  predicate InFieldOrder(ev: seq<Event>)
  {
    forall i, j :: 0 <= i < j < |ev| && ev[i].Post? && ev[j].Post? ==> Rank(ev[i].field) < Rank(ev[j].field)
  }

  /** Every post in `ev` is on a field ranked below `k`. */
  predicate RanksBelow(ev: seq<Event>, k: nat)
  {
    forall e :: e in ev && e.Post? ==> Rank(e.field) < k
  }

  lemma OrderedAppend(a: seq<Event>, b: seq<Event>, k: nat)
    requires InFieldOrder(a) && RanksBelow(a, k)
    requires |b| <= 1 && (forall e :: e in b && e.Post? ==> k <= Rank(e.field))
    ensures InFieldOrder(a + b)
  {
    forall i, j | 0 <= i < j < |a + b| && (a + b)[i].Post? && (a + b)[j].Post?
      ensures Rank((a + b)[i].field) < Rank((a + b)[j].field)
    {
      if j >= |a| {
        assert (a + b)[i] in a && (a + b)[j] in b;
      }
    }
  }

  /** `Emit` posts in field order, so together with `EmitPosts` its result
      is fixed: each field at most once, in monitor's order. */
  lemma EmitInFieldOrder(alarmed: bool, mask: set<Dbe>, cvalChanged: bool, outChanged: bool)
    ensures InFieldOrder(Emit(alarmed, mask, cvalChanged, outChanged))
  {
    var a, b := PostIf(alarmed, Stat, {DbeValue}), PostIf(alarmed, Sevr, {DbeValue});
    var c, d := PostIf(mask != {}, Val, mask), PostIf(cvalChanged, Cval, {DbeValue});
    var e := PostIf(outChanged, Out, {DbeValue});
    OrderedAppend(a, b, 1);
    OrderedAppend(a + b, c, 2);
    OrderedAppend(a + b + c, d, 3);
    OrderedAppend(a + b + c + d, e, 4);
  }

  /** `Emit` only posts: it never processes the forward link. */
  lemma EmitOnlyPosts(alarmed: bool, mask: set<Dbe>, cvalChanged: bool, outChanged: bool)
    ensures ScanForward !in Emit(alarmed, mask, cvalChanged, outChanged)
  {
    var a, b := PostIf(alarmed, Stat, {DbeValue}), PostIf(alarmed, Sevr, {DbeValue});
    var c, d := PostIf(mask != {}, Val, mask), PostIf(cvalChanged, Cval, {DbeValue});
    var e := PostIf(outChanged, Out, {DbeValue});
    assert ScanForward !in a && ScanForward !in b && ScanForward !in c && ScanForward !in d && ScanForward !in e;
  }

  function Monitor(r: PidRecord): (m: Monitored)
    // the pending alarm is committed and reset, always
    ensures m.rec.stat == r.nsta && m.rec.sevr == r.nsev
    ensures m.rec.nsta == NoAlarm && m.rec.nsev == NoAlarm
    ensures m.rec == r.(stat := m.rec.stat, sevr := m.rec.sevr, nsta := m.rec.nsta, nsev := m.rec.nsev,
                        mlst := m.rec.mlst, alst := m.rec.alst, ocva := m.rec.ocva, oout := m.rec.oout)
    // without subscribers nothing is posted and no reference value moves
    ensures r.subscribers == 0 ==>
      m.events == [] && m.rec.mlst == r.mlst && m.rec.alst == r.alst && m.rec.ocva == r.ocva && m.rec.oout == r.oout
    // with subscribers: status and severity are posted once each exactly when the alarm changed
    ensures r.subscribers > 0 ==>
      && Posts(m.events, Stat) == Posts(m.events, Sevr) == (if AlarmChanged(r) then 1 else 0)
      && MaskFor(m.events, Stat) == MaskFor(m.events, Sevr) == (if AlarmChanged(r) then {DbeValue} else {})
    // the value is posted once exactly when some mask bit is set, each bit for its own reason,
    // and the reference values follow the bits
    ensures r.subscribers > 0 ==>
      && Posts(m.events, Val) == (if AlarmChanged(r) || ValueMoved(r) || ArchiveMoved(r) then 1 else 0)
      && (DbeAlarm in MaskFor(m.events, Val) <==> AlarmChanged(r))
      && (DbeValue in MaskFor(m.events, Val) <==> ValueMoved(r))
      && (DbeLog in MaskFor(m.events, Val) <==> ArchiveMoved(r))
      && m.rec.mlst == (if ValueMoved(r) then r.val else r.mlst)
      && m.rec.alst == (if ArchiveMoved(r) then r.val else r.alst)
    // the controlled value and output are posted when they differ from their copies, which then catch up
    ensures r.subscribers > 0 ==>
      && Posts(m.events, Cval) == (if r.ocva != r.cval then 1 else 0)
      && Posts(m.events, Out) == (if r.oout != r.out then 1 else 0)
      && MaskFor(m.events, Cval) == (if r.ocva != r.cval then {DbeValue} else {})
      && MaskFor(m.events, Out) == (if r.oout != r.out then {DbeValue} else {})
      && m.rec.ocva == r.cval && m.rec.oout == r.out
    // and the posts come in the order status, severity, value, controlled value, output
    ensures ScanForward !in m.events && InFieldOrder(m.events)
  {
    var committed := r.(stat := r.nsta, sevr := r.nsev, nsta := NoAlarm, nsev := NoAlarm);
    if r.subscribers == 0 then Monitored(committed, [])
    else
      var mask := ValueMask(r);
      assert mask != {} <==> AlarmChanged(r) || ValueMoved(r) || ArchiveMoved(r);
      var cvalChanged, outChanged := r.ocva != r.cval, r.oout != r.out;
      EmitPosts(AlarmChanged(r), mask, cvalChanged, outChanged, Stat);
      EmitPosts(AlarmChanged(r), mask, cvalChanged, outChanged, Sevr);
      EmitPosts(AlarmChanged(r), mask, cvalChanged, outChanged, Val);
      EmitPosts(AlarmChanged(r), mask, cvalChanged, outChanged, Cval);
      EmitPosts(AlarmChanged(r), mask, cvalChanged, outChanged, Out);
      EmitOnlyPosts(AlarmChanged(r), mask, cvalChanged, outChanged);
      EmitInFieldOrder(AlarmChanged(r), mask, cvalChanged, outChanged);
      Monitored(committed.(mlst := if ValueMoved(r) then r.val else r.mlst,
                           alst := if ArchiveMoved(r) then r.val else r.alst,
                           ocva := r.cval, oout := r.out),
                Emit(AlarmChanged(r), mask, cvalChanged, outChanged))
  }
}

/** The SQL editor's timers: the auto-refresh clock behind the update
    toggle, the poll that waits for the engine's answer, and the name a
    loaded file is listed under. */
module SqlEditors {
  import opened Wrappers
  import opened Strs
  import StatusStacks
  import Utils

  // ---------------------------------------------------------------------
  // The auto-refresh clock

  /** The period of the clock's timer, in milliseconds. */
  const TickMs: nat := 500
  /** The interval the update toggle sets, in milliseconds. */
  const RefreshMs: nat := 2000

  /** The clock: started, the refresh interval, and the time passed since
      the last refresh. */
  datatype Clock = Clock(started: bool, interval: nat, passed: nat)

  /** The clock of a freshly armed toggle. */
  const Armed := Clock(true, RefreshMs, 0)

  /** One tick of the timer, given whether the refresh button is sensitive:
      the new clock, and whether the refresh was clicked. */
  function TickSpec(c: Clock, sensitive: bool): (r: (Clock, bool))
    ensures r.0.started == c.started && r.0.interval == c.interval
    ensures r.1 <==> c.started && c.interval > 0 && c.passed >= c.interval && sensitive
    ensures !c.started || c.interval == 0 ==> r.0 == c
    ensures c.started && c.interval > 0 && c.passed >= c.interval ==> r.0.passed == 0
    ensures c.started && c.interval > 0 && c.passed < c.interval ==> r.0.passed == c.passed + TickMs
  {
    if !c.started || c.interval == 0 then (c, false)
    else if c.passed >= c.interval then (c.(passed := 0), sensitive)
    else (c.(passed := c.passed + TickMs), false)
  }

  /** The clock states the editor can reach: the interval is the toggle's,
      the time passed counts whole ticks up to the interval, and a started
      clock has an interval. */
  predicate ClockInv(c: Clock)
  {
    (c.interval == 0 || c.interval == RefreshMs) && c.passed % TickMs == 0 && c.passed <= RefreshMs
    && (c.started ==> c.interval == RefreshMs)
  }

  function ToggleSpec(c: Clock, active: bool): Clock
  {
    Clock(false, if active then RefreshMs else 0, c.passed)
  }

  function ArmSpec(c: Clock): Clock
  {
    if c.interval > 0 then c.(started := true, passed := 0) else c
  }

  const Stopped := Clock(false, 0, 0)

  /** Every clock operation keeps the clock among the reachable states. */
  lemma ClockInvKept(c: Clock, sensitive: bool, active: bool)
    requires ClockInv(c)
    ensures ClockInv(TickSpec(c, sensitive).0)
    ensures ClockInv(ToggleSpec(c, active))
    ensures ClockInv(ArmSpec(c))
    ensures ClockInv(Stopped)
  {
    if c.started && c.passed < c.interval {
      assert c.passed <= RefreshMs - TickMs;
    }
  }

  class UpdateClock {
    var started: bool
    var interval: nat
    var passed: nat

    function State(): Clock
      reads this
    {
      Clock(started, interval, passed)
    }

    constructor()
      ensures State() == Stopped && ClockInv(State())
    {
      started, interval, passed := false, 0, 0;
    }

    /** The timer's callback; reports whether it clicked the refresh button. */
    method Tick(sensitive: bool) returns (fired: bool)
      modifies this
      ensures (State(), fired) == TickSpec(old(State()), sensitive)
    {
      fired := false;
      if !started || interval == 0 {
        return;
      }
      if passed >= interval {
        passed := 0;
        fired := sensitive;
      } else {
        passed := passed + TickMs;
      }
    }

    /** The update toggle: stops the clock and sets the interval. */
    method Toggle(active: bool)
      modifies this
      ensures State() == ToggleSpec(old(State()), active)
    {
      started := false;
      interval := if active then RefreshMs else 0;
    }

    /** A refresh click starts the clock when there is an interval. */
    method Arm()
      modifies this
      ensures State() == ArmSpec(old(State()))
    {
      if interval > 0 {
        started := true;
        passed := 0;
      }
    }

    /** Deactivating the editor stops the clock. */
    method Reset()
      modifies this
      ensures State() == Stopped
    {
      started, interval, passed := false, 0, 0;
    }
  }

  /** The clicks of n ticks of a timer step, from clock c. */
  function Clicks(step: Clock -> (Clock, bool), c: Clock, n: nat): (r: seq<bool>)
    ensures |r| == n
    decreases n
  {
    if n == 0 then [] else [step(c).1] + Clicks(step, step(c).0, n - 1)
  }

  /** The clock after n ticks. */
  function After(step: Clock -> (Clock, bool), c: Clock, n: nat): Clock
    decreases n
  {
    if n == 0 then c else After(step, step(c).0, n - 1)
  }

  lemma {:induction false} ClicksSplit(step: Clock -> (Clock, bool), c: Clock, m: nat, n: nat)
    ensures Clicks(step, c, m + n) == Clicks(step, c, m) + Clicks(step, After(step, c, m), n)
    decreases m
  {
    if m > 0 {
      ClicksSplit(step, step(c).0, m - 1, n);
      assert m + n - 1 == (m - 1) + n;
    }
  }

  lemma ModBelow(i: nat, p: nat)
    requires i < p
    ensures i % p == i
  {
  }

  lemma ModShift(i: nat, p: nat)
    requires 0 < p <= i
    ensures i % p == (i - p) % p
  {
    var q, r := (i - p) / p, (i - p) % p;
    assert i == p * (q + 1) + r;
    Utils.ModOfDecomposition(i, p, q + 1, r);
  }

  /** A step that comes back to its clock after p ticks, clicking only on
      the last of them, clicks on every p-th tick and never in between. */
  lemma {:induction false} Periodic(step: Clock -> (Clock, bool), c: Clock, p: nat, n: nat)
    requires p > 0 && After(step, c, p) == c
    requires forall i :: 0 <= i < p ==> (Clicks(step, c, p)[i] <==> i == p - 1)
    ensures forall i :: 0 <= i < n ==> (Clicks(step, c, n)[i] <==> i % p == p - 1)
    decreases n
  {
    var cs := Clicks(step, c, n);
    if n < p {
      ClicksSplit(step, c, n, p - n);
      assert n + (p - n) == p;
      assert Clicks(step, c, p)[..n] == cs;
      forall i | 0 <= i < n
        ensures cs[i] <==> i % p == p - 1
      {
        ModBelow(i, p);
        assert cs[i] == Clicks(step, c, p)[i];
      }
    } else {
      Periodic(step, c, p, n - p);
      ClicksSplit(step, c, p, n - p);
      assert p + (n - p) == n;
      assert cs == Clicks(step, c, p) + Clicks(step, c, n - p);
      forall i | 0 <= i < n
        ensures cs[i] <==> i % p == p - 1
      {
        if i >= p {
          assert cs[i] == Clicks(step, c, n - p)[i - p];
          ModShift(i, p);
        } else {
          ModBelow(i, p);
          assert cs[i] == Clicks(step, c, p)[i];
        }
      }
    }
  }

  /** The timer of the editor, with the refresh button sensitive. */
  function Ticking(c: Clock): (Clock, bool)
  {
    TickSpec(c, true)
  }

  /** As written, an armed clock clicks refresh on every fifth tick of
      500 ms, that is every 2500 ms although the interval is 2000 ms: the
      check of the time passed comes before the tick is counted. */
  lemma FiresEveryFifthTick(n: nat)
    ensures forall i :: 0 <= i < n ==> (Clicks(Ticking, Armed, n)[i] <==> i % 5 == 4)
    ensures n == 5 ==> After(Ticking, Armed, n) == Armed
  {
    var c1 := Armed.(passed := 500);
    var c2 := Armed.(passed := 1000);
    var c3 := Armed.(passed := 1500);
    var c4 := Armed.(passed := 2000);
    assert Ticking(Armed) == (c1, false);
    assert Ticking(c1) == (c2, false);
    assert Ticking(c2) == (c3, false);
    assert Ticking(c3) == (c4, false);
    assert Ticking(c4) == (Armed, true);
    assert After(Ticking, c4, 1) == Armed;
    assert After(Ticking, Armed, 5) == Armed;
    assert Clicks(Ticking, c4, 1) == [true];
    assert Clicks(Ticking, Armed, 5) == [false, false, false, false, true];
    Periodic(Ticking, Armed, 5, n);
  }

  /** The tick the interval evidently asks for: the tick is counted first,
      so the refresh comes once the interval has passed. */
  function TickIntended(c: Clock, sensitive: bool): (r: (Clock, bool))
    ensures r.0.started == c.started && r.0.interval == c.interval
    ensures r.1 <==> c.started && c.interval > 0 && c.passed + TickMs >= c.interval && sensitive
  {
    if !c.started || c.interval == 0 then (c, false)
    else if c.passed + TickMs >= c.interval then (c.(passed := 0), sensitive)
    else (c.(passed := c.passed + TickMs), false)
  }

  function TickingIntended(c: Clock): (Clock, bool)
  {
    TickIntended(c, true)
  }

  /** The intended tick clicks refresh every fourth tick: every 2000 ms. */
  lemma IntendedFiresEveryFourthTick(n: nat)
    ensures forall i :: 0 <= i < n ==> (Clicks(TickingIntended, Armed, n)[i] <==> i % 4 == 3)
    ensures 4 * TickMs == RefreshMs
  {
    var c1 := Armed.(passed := 500);
    var c2 := Armed.(passed := 1000);
    var c3 := Armed.(passed := 1500);
    assert TickingIntended(Armed) == (c1, false);
    assert TickingIntended(c1) == (c2, false);
    assert TickingIntended(c2) == (c3, false);
    assert TickingIntended(c3) == (Armed, true);
    assert After(TickingIntended, c3, 1) == Armed;
    assert After(TickingIntended, Armed, 4) == Armed;
    assert Clicks(TickingIntended, c3, 1) == [true];
    assert Clicks(TickingIntended, Armed, 4) == [false, false, false, true];
    Periodic(TickingIntended, Armed, 4, n);
  }

  // ---------------------------------------------------------------------
  // Waiting for the answer to a query

  /** The poll runs every 16 ms and gives up after this many polls without
      an answer: about five seconds. */
  const MaxTries: nat := 312
  const PollMs: nat := 16
  const TimeoutMsg := "5 seconds timeout reached"

  /** Whether a query was sent and not answered, the polls so far without
      an answer, and whether the editor accepts input. */
  datatype Poll = Poll(sent: bool, tries: nat, editable: bool)

  /** One poll, given whether the engine's answer arrived: the new state,
      and whether the wait timed out. */
  function PollSpec(p: Poll, updated: bool): (r: (Poll, bool))
    ensures !p.sent ==> r == (p, false)
    ensures p.sent && updated ==> r == (Poll(false, 0, true), false)
    ensures r.1 <==> p.sent && !updated && p.tries + 1 == MaxTries
    ensures r.1 ==> r.0 == Poll(false, 0, true)
    ensures p.sent && !updated && !r.1 ==> r.0 == p.(tries := p.tries + 1)
  {
    if !p.sent then (p, false)
    else if updated then (Poll(false, 0, true), false)
    else if p.tries + 1 == MaxTries then (Poll(false, 0, true), true)
    else (p.(tries := p.tries + 1), false)
  }

  /** update_queries, given the selected or whole text of the editor and
      what sending it gave: a failed send returns its error and changes
      nothing; otherwise the query counts as sent, even when there was no
      text, and the editor is locked when there was. */
  function SendSpec(p: Poll, text: Option<string>, send: Result<()>): (r: (Poll, Result<()>))
    ensures text.Some? && send.Err? ==> r == (p, Err(send.msg))
    ensures !(text.Some? && send.Err?) ==> r.1 == Ok(()) && r.0.sent && r.0.tries == p.tries
    ensures !(text.Some? && send.Err?) ==> r.0.editable == (p.editable && text.None?)
  {
    if text.Some? && send.Err? then (p, Err(send.msg))
    else if text.Some? then (Poll(true, p.tries, false), Ok(()))
    else (p.(sent := true), Ok(()))
  }

  /** The poll states the editor can reach: tries count only while a
      query waits, and stay below the limit. */
  predicate PollInv(p: Poll)
  {
    p.tries < MaxTries && (!p.sent ==> p.tries == 0)
  }

  lemma PollInvKept(p: Poll, updated: bool, text: Option<string>, send: Result<()>)
    requires PollInv(p)
    ensures PollInv(PollSpec(p, updated).0)
    ensures PollInv(SendSpec(p, text, send).0)
  {
  }

  /** The state after n polls that find no answer. */
  function Waiting(p: Poll, n: nat): Poll
  {
    if n == 0 then p else PollSpec(Waiting(p, n - 1), false).0
  }

  /** A query sent with no earlier polls pending is given up on exactly at
      the 312th poll without an answer, about 5 seconds later; before that
      the polls only count. */
  lemma {:induction false} TimeoutAtLastTry(p: Poll, n: nat)
    requires p.sent && p.tries == 0 && n < MaxTries
    ensures Waiting(p, n) == p.(tries := n)
    ensures n + 1 == MaxTries ==> PollSpec(Waiting(p, n), false) == (Poll(false, 0, true), true)
    ensures n + 1 < MaxTries ==> !PollSpec(Waiting(p, n), false).1
    ensures MaxTries * PollMs < 5000
  {
    if n > 0 {
      TimeoutAtLastTry(p, n - 1);
    }
  }

  /** The editor's wait for results, and the status it reports on a time
      out. */
  class QueryPoll {
    var sent: bool
    var tries: nat
    var editable: bool

    function State(): Poll
      reads this
    {
      Poll(sent, tries, editable)
    }

    constructor()
      ensures State() == Poll(false, 0, true) && PollInv(State())
    {
      sent, tries, editable := false, 0, true;
    }

    method UpdateQueries(text: Option<string>, send: Result<()>) returns (r: Result<()>)
      modifies this
      ensures (State(), r) == SendSpec(old(State()), text, send)
    {
      if text.Some? {
        if send.Err? {
          return Err(send.msg);
        }
        editable := false;
      }
      sent := true;
      return Ok(());
    }

    /** One poll of the result timer; on a time out the status stack shows
        the time-out error. */
    method Tick(updated: bool, status: StatusStacks.StatusStack) returns (timedOut: bool)
      requires status.Valid()
      modifies this, status
      ensures (State(), timedOut) == PollSpec(old(State()), updated)
      ensures status.Valid()
      ensures timedOut ==> status.status == StatusStacks.SqlErr(TimeoutMsg) && status.Shows(status.status)
      ensures !timedOut ==> unchanged(status)
    {
      timedOut := false;
      if !sent {
        return;
      }
      if updated {
        editable := true;
        sent := false;
        tries := 0;
      } else {
        tries := tries + 1;
        if tries == MaxTries {
          editable := true;
          sent := false;
          tries := 0;
          timedOut := true;
          status.Update(StatusStacks.SqlErr(TimeoutMsg));
        }
      }
    }
  }

  // ---------------------------------------------------------------------
  // The name of a loaded file

  /** A path: absolute or not, and its components (no '/' inside, no "."
      component, which path parsing drops). */
  datatype Path = Path(absolute: bool, comps: seq<string>)

  predicate ValidPath(p: Path)
  {
    forall i :: 0 <= i < |p.comps| ==> |p.comps[i]| > 0 && '/' !in p.comps[i] && p.comps[i] != "."
  }

  function PathText(p: Path): string
  {
    (if p.absolute then "/" else "") + Join(p.comps, '/')
  }

  /** The last component, unless there is none or it is "..". */
  function FileName(p: Path): (r: Option<string>)
    ensures r.Some? ==> |p.comps| > 0 && r.value == p.comps[|p.comps| - 1]
  {
    if |p.comps| == 0 || p.comps[|p.comps| - 1] == ".." then None else Some(p.comps[|p.comps| - 1])
  }

  /** The path without its last component; the root and the empty path
      have none. */
  function Parent(p: Path): (r: Option<Path>)
    ensures r.Some? <==> |p.comps| > 0
    ensures r.Some? ==> r.value.absolute == p.absolute && r.value.comps + [p.comps[|p.comps| - 1]] == p.comps
  {
    if |p.comps| == 0 then None else Some(Path(p.absolute, p.comps[..|p.comps| - 1]))
  }

  /** The name a loaded file is listed under: its parent, a '/' and its
      file name. */
  function ClipName(p: Path): (r: Option<string>)
    ensures r.None? <==> FileName(p).None?
  {
    match FileName(p)
    case None => None
    case Some(name) =>
      match Parent(p)
      case Some(q) => Some(PathText(q) + "/" + name)
      case None => Some(name)
  }

  /** A file below a directory is listed under its whole path. */
  lemma ClipNameKeepsPath(p: Path)
    requires |p.comps| >= 2 && p.comps[|p.comps| - 1] != ".."
    ensures ClipName(p) == Some(PathText(p))
  {
    var n := |p.comps|;
    var q := Path(p.absolute, p.comps[..n - 1]);
    assert Parent(p) == Some(q);
    JoinSnoc(q.comps, p.comps[n - 1], '/');
    assert q.comps + [p.comps[n - 1]] == p.comps;
    assert PathText(q) + "/" + p.comps[n - 1] == PathText(p);
  }

  /** A file at the top of a path gets an extra leading '/': "/a.sql" is
      listed as "//a.sql", and a bare "a.sql" as "/a.sql". */
  lemma ClipNameTopLevel(p: Path)
    requires |p.comps| == 1 && p.comps[0] != ".."
    ensures ClipName(p) == Some("/" + PathText(p))
  {
    var q := Path(p.absolute, []);
    assert p.comps[..0] == [];
    assert Parent(p) == Some(q);
    assert Join(p.comps, '/') == p.comps[0];
    assert Join(q.comps, '/') == "";
    if p.absolute {
      assert PathText(q) == "/";
      assert PathText(p) == "/" + p.comps[0];
      assert PathText(q) + "/" + p.comps[0] == "/" + PathText(p);
    } else {
      assert PathText(q) == "";
      assert PathText(p) == p.comps[0];
      assert PathText(q) + "/" + p.comps[0] == "/" + p.comps[0];
    }
  }
}

/**
  The daily quota tracker: a per-user request counter checked against
  `DAILY_LIMIT` and reset on the first check of a new day.

  The model follows the tracker's documented contract. The code differs
  from it in three places, each deliberately not reproduced here:
  - it reads and writes `user.last_request_at`, while the user record's
    column is `last_request_date`; the model uses `lastRequestDate`;
  - it stores `datetime.utcnow()`, called on the `datetime` module (which
    has no such function) and which would store a timestamp rather than a
    date; the model stores `today`;
  - it returns the bare boolean `remaining > 0`, while its docstring and
    every caller unpack `(allowed, remaining)`; the model returns both.
  `today` (the process clock's date) is a parameter.
*/
module Quota {
  import opened Models
  import opened Db

  /** Completion-consuming requests per user per calendar day. */
  const DAILY_LIMIT: nat := 30

  /** The documented answer of the check: `(allowed, remaining)`. */
  datatype Verdict = Verdict(allowed: bool, remaining: int)

  /** `check_rate_limit`: reset on a new day, then compare with the limit. */
  function CheckRateLimit(u: User, today: Day): (out: (Verdict, User))
    ensures out.1.lastRequestDate == today
    ensures out.1.dailyRequestCount == (if u.lastRequestDate == today then u.dailyRequestCount else 0)
    ensures out.1.(dailyRequestCount := u.dailyRequestCount, lastRequestDate := u.lastRequestDate) == u
    ensures out.0.remaining == DAILY_LIMIT - out.1.dailyRequestCount
    ensures out.0.allowed <==> out.1.dailyRequestCount < DAILY_LIMIT
  {
    var checked :=
      if u.lastRequestDate != today then u.(dailyRequestCount := 0, lastRequestDate := today)
      else u;
    var remaining := DAILY_LIMIT - checked.dailyRequestCount;
    (Verdict(remaining > 0, remaining), checked)
  }

  /** `increment_request_count`: one more request today, nothing else. */
  function IncrementRequestCount(u: User): (v: User)
    ensures v.dailyRequestCount == u.dailyRequestCount + 1
    ensures v.(dailyRequestCount := u.dailyRequestCount) == u
  {
    u.(dailyRequestCount := u.dailyRequestCount + 1)
  }

  /** A second check on the same day answers alike and changes nothing. */
  lemma CheckTwiceSameDay(u: User, today: Day)
    ensures CheckRateLimit(CheckRateLimit(u, today).1, today) == CheckRateLimit(u, today)
  {
  }

  /** The first check of a new day is always allowed, with the full quota. */
  lemma FirstCheckOfDayAllowed(u: User, today: Day)
    requires u.lastRequestDate != today
    ensures CheckRateLimit(u, today).0 == Verdict(true, DAILY_LIMIT)
  {
  }

  /** Below the limit, the check refuses exactly when today's count has
      reached the limit. */
  lemma RefusedExactlyAtLimit(u: User, today: Day)
    requires u.dailyRequestCount <= DAILY_LIMIT
    ensures !CheckRateLimit(u, today).0.allowed
            <==> u.lastRequestDate == today && u.dailyRequestCount == DAILY_LIMIT
  {
  }

  /** The quota side of one rate-limited request, as every route runs it:
      check, then increment only when the check allowed the request and
      the completion call succeeded. */
  function Serve(u: User, a: Attempt): User {
    var (verdict, checked) := CheckRateLimit(u, a.day);
    if verdict.allowed && a.completed then IncrementRequestCount(checked) else checked
  }

  /** One request: the day it came in and whether its completion succeeded. */
  datatype Attempt = Attempt(day: Day, completed: bool)

  /** The quota after a run of requests, oldest first. */
  function ServeAll(u: User, run: seq<Attempt>): User
    decreases |run|
  {
    if |run| == 0 then u else Serve(ServeAll(u, run[..|run| - 1]), run[|run| - 1])
  }

  /** Because increments only follow an allowed check on the same day, no
      run of requests takes the count past the limit. */
  lemma {:induction false} ServeAllWithinLimit(u: User, run: seq<Attempt>)
    requires u.dailyRequestCount <= DAILY_LIMIT
    ensures ServeAll(u, run).dailyRequestCount <= DAILY_LIMIT
    decreases |run|
  {
    if |run| > 0 {
      ServeAllWithinLimit(u, run[..|run| - 1]);
    }
  }

  /** `n` successful requests on one day. */
  function Successes(day: Day, n: nat): (run: seq<Attempt>)
    ensures |run| == n
    ensures forall i :: 0 <= i < n ==> run[i] == Attempt(day, true)
  {
    seq(n, _ => Attempt(day, true))
  }

  /** Starting a new day, `n` successful requests (up to the limit) leave the
      count at exactly `n`; the next check is refused exactly when `n` is the
      limit. */
  lemma {:induction false} SameDayRun(u: User, day: Day, n: nat)
    requires u.lastRequestDate != day
    requires 1 <= n <= DAILY_LIMIT
    ensures ServeAll(u, Successes(day, n)).lastRequestDate == day
    ensures ServeAll(u, Successes(day, n)).dailyRequestCount == n
    ensures !CheckRateLimit(ServeAll(u, Successes(day, n)), day).0.allowed <==> n == DAILY_LIMIT
  {
    var run := Successes(day, n);
    if n == 1 {
      assert run[..0] == [];
    } else {
      assert run[..n - 1] == Successes(day, n - 1);
      SameDayRun(u, day, n - 1);
    }
  }

  /** Every stored user's count is within the limit. */
  predicate QuotaWithinLimit(st: Store) {
    forall i :: 0 <= i < |st.users| ==> st.users[i].dailyRequestCount <= DAILY_LIMIT
  }

  /** `check_rate_limit` on stored user `me`: a reset is committed, and only
      on a new day. A refused check leaves the request's trace as it was. */
  function CheckStored(t: Trace, me: nat, today: Day): (out: (Verdict, Trace))
    requires t.Valid() && me < |t.after.users|
    ensures out.1.Valid() && out.1.before == t.before
    ensures out.0 == CheckRateLimit(t.after.users[me], today).0
    ensures out.1.after == t.after.(users := t.after.users[me := CheckRateLimit(t.after.users[me], today).1])
    ensures out.1.writes == t.writes +
      (if t.after.users[me].lastRequestDate != today
       then [PutUser(me, CheckRateLimit(t.after.users[me], today).1)] else [])
    ensures !out.0.allowed ==> out.1 == t
  {
    var u := t.after.users[me];
    var (verdict, checked) := CheckRateLimit(u, today);
    if u.lastRequestDate != today then (verdict, Commit(t, PutUser(me, checked)))
    else
      assert t.after.users[me := checked] == t.after.users;
      (verdict, t)
  }

  /** `increment_request_count` on stored user `me`, committed. */
  function IncrementStored(t: Trace, me: nat): (t': Trace)
    requires t.Valid() && me < |t.after.users|
    ensures t'.Valid() && t'.before == t.before
    ensures t'.after == t.after.(users := t.after.users[me := IncrementRequestCount(t.after.users[me])])
    ensures t'.writes == t.writes + [PutUser(me, IncrementRequestCount(t.after.users[me]))]
  {
    Commit(t, PutUser(me, IncrementRequestCount(t.after.users[me])))
  }

  /** The user `me` after a request's quota check. */
  function Checked(st: Store, me: nat, today: Day): User
    requires me < |st.users|
  {
    CheckRateLimit(st.users[me], today).1
  }

  /** The commit of a request's quota check: a reset, on a new day only. */
  function ResetWrites(st: Store, me: nat, today: Day): seq<Write>
    requires me < |st.users|
  {
    if st.users[me].lastRequestDate != today then [PutUser(me, Checked(st, me, today))] else []
  }

  /** The quota check opening a request, in terms of the store it starts
      from. */
  lemma CheckedStore(st: Store, me: nat, today: Day)
    requires me < |st.users|
    ensures var t := CheckStored(Begin(st), me, today).1;
      && t.writes == ResetWrites(st, me, today)
      && t.after == st.(users := st.users[me := Checked(st, me, today)])
      && t.after.users[me] == Checked(st, me, today)
  {
  }

  /** Two updates of one user: the second wins. */
  lemma UpdateTwice(users: seq<User>, me: nat, a: User, b: User)
    requires me < |users|
    ensures users[me := a][me := b] == users[me := b]
  {
  }

  /** An allowed check followed by an increment keeps every count within
      the limit. */
  lemma ChargeWithinLimit(st: Store, me: nat, today: Day)
    requires QuotaWithinLimit(st) && me < |st.users|
    requires CheckRateLimit(st.users[me], today).0.allowed
    ensures QuotaWithinLimit(st.(users := st.users[me := IncrementRequestCount(CheckRateLimit(st.users[me], today).1)]))
  {
  }

  /** A check alone keeps every count within the limit. */
  lemma CheckWithinLimit(st: Store, me: nat, today: Day)
    requires QuotaWithinLimit(st) && me < |st.users|
    ensures QuotaWithinLimit(st.(users := st.users[me := CheckRateLimit(st.users[me], today).1]))
  {
  }
}

/** Token budgets: metering usage over rolling windows and telling the king once
    when a budget runs low and once when it is spent. */
module Budget {
  const LINE := "line"
  const CARD := "card"
  const DEFAULT_WARN: nat := 80

  /** Times and periods are durations in one unit; warn 0 means the default. */
  datatype Budget = Budget(scope: string, tokens: int, period: int, warn: nat)
  datatype Usage = Usage(at: int, role: string, card: string, tokens: nat)
  datatype Status = Status(scope: string, card: string, used: nat, limit: int, percent: nat, warnPercent: nat, exhausted: bool)

  /** What validating the constitution's budgets guarantees. */
  ghost predicate ValidBudgets(bs: seq<Budget>) {
    && (forall i :: 0 <= i < |bs| ==> bs[i].tokens >= 1 && bs[i].period > 0 && bs[i].warn <= 99)
    && (forall i, j :: 0 <= i < j < |bs| ==> bs[i].scope != bs[j].scope)
  }

  function WarnOf(b: Budget): nat {
    if b.warn == 0 then DEFAULT_WARN else b.warn
  }

  function KeyOf(b: Budget, u: Usage): string {
    if b.scope == CARD then u.card else ""
  }

  /** The usage counts for budget b, within its window, under key k. */
  predicate Hit(b: Budget, u: Usage, now: int, k: string) {
    u.at >= now - b.period && (b.scope == CARD || b.scope == LINE || b.scope == u.role) && KeyOf(b, u) == k
  }

  function Used(b: Budget, us: seq<Usage>, now: int, k: string): nat {
    if us == [] then 0
    else Used(b, us[..|us| - 1], now, k) + if Hit(b, us[|us| - 1], now, k) then us[|us| - 1].tokens else 0
  }

  /** The budget has something to report under k. */
  predicate Reports(b: Budget, us: seq<Usage>, now: int, k: string) {
    (b.scope != CARD && k == "") || exists i :: 0 <= i < |us| && Hit(b, us[i], now, k)
  }

  /** Integer division, unrolled: QuotientIsDivision says so, and the other
      proofs need no more of it than that it is monotone. */
  function Quotient(a: nat, b: nat): nat
    requires b >= 1
  {
    if a < b then 0 else 1 + Quotient(a - b, b)
  }

  function Percent(used: nat, limit: int): nat
    requires limit >= 1
  {
    Quotient(used * 100, limit)
  }

  function StatusFor(b: Budget, used: nat, k: string): Status
    requires b.tokens >= 1
  {
    Status(b.scope, k, used, b.tokens, Percent(used, b.tokens), WarnOf(b), used >= b.tokens)
  }

  function StatusOf(b: Budget, us: seq<Usage>, now: int, k: string): Status
    requires b.tokens >= 1
  {
    StatusFor(b, Used(b, us, now, k), k)
  }

  lemma {:induction false} UsedFacts(b: Budget, us: seq<Usage>, now: int, k: string)
    ensures !(exists i :: 0 <= i < |us| && Hit(b, us[i], now, k)) ==> Used(b, us, now, k) == 0
  {
    if us != [] {
      UsedFacts(b, us[..|us| - 1], now, k);
    }
  }

  lemma {:induction false} QuotientMonotone(a: nat, a': nat, b: nat)
    requires b >= 1 && a <= a'
    ensures Quotient(a, b) <= Quotient(a', b)
  {
    if a >= b {
      QuotientMonotone(a - b, a' - b, b);
    }
  }

  lemma {:induction false} QuotientReaches(a: nat, b: nat, q: nat)
    requires b >= 1
    ensures Quotient(a, b) >= q <==> a >= q * b
  {
    if a >= b && q > 0 {
      QuotientReaches(a - b, b, q - 1);
      assert q * b == (q - 1) * b + b;
    } else if q > 0 {
      assert q * b == (q - 1) * b + b;
      assert (q - 1) * b >= 0;
    }
  }

  lemma QuotientIsDivision(a: nat, b: nat)
    requires b >= 1
    ensures Quotient(a, b) == a / b
  {
    var q := a / b;
    assert a == q * b + a % b && (q + 1) * b == q * b + b;
    QuotientReaches(a, b, q);
    QuotientReaches(a, b, q + 1);
  }

  /** Exhausted is exactly a full percentage. */
  lemma ExhaustedIsHundredPercent(b: Budget, us: seq<Usage>, now: int, k: string)
    requires b.tokens >= 1
    ensures var st := StatusOf(b, us, now, k); st.exhausted <==> st.percent >= 100
    ensures StatusOf(b, us, now, k).percent == Used(b, us, now, k) * 100 / b.tokens
    ensures StatusOf(b, us, now, k).exhausted <==> Used(b, us, now, k) >= b.tokens
    ensures StatusOf(b, us, now, k).warnPercent == if b.warn == 0 then 80 else b.warn
  {
    QuotientReaches(Used(b, us, now, k) * 100, b.tokens, 100);
    QuotientIsDivision(Used(b, us, now, k) * 100, b.tokens);
  }

  // ---------- the longest window is enough ----------

  function Since(us: seq<Usage>, start: int): seq<Usage> {
    if us == [] then []
    else Since(us[..|us| - 1], start) + if us[|us| - 1].at >= start then [us[|us| - 1]] else []
  }

  /** Metering from a log cut at the longest window is metering from all of it. */
  lemma {:induction false} WindowSuffices(b: Budget, us: seq<Usage>, now: int, window: int, k: string)
    requires b.period <= window
    ensures Used(b, Since(us, now - window), now, k) == Used(b, us, now, k)
    ensures Reports(b, Since(us, now - window), now, k) <==> Reports(b, us, now, k)
  {
    if us != [] {
      var n := |us| - 1;
      var front, cut := us[..n], Since(us[..n], now - window);
      WindowSuffices(b, front, now, window, k);
      assert us == front + [us[n]];
      ReportsMore(b, front, us[n], now, k);
      if us[n].at >= now - window {
        assert Since(us, now - window) == cut + [us[n]];
        assert (cut + [us[n]])[..|cut|] == cut;
        ReportsMore(b, cut, us[n], now, k);
      } else {
        assert Since(us, now - window) == cut;
      }
    }
  }

  lemma ReportsMore(b: Budget, us: seq<Usage>, u: Usage, now: int, k: string)
    ensures Reports(b, us + [u], now, k) <==> Reports(b, us, now, k) || Hit(b, u, now, k)
  {
    var more := us + [u];
    assert more[|us|] == u && forall i :: 0 <= i < |us| ==> more[i] == us[i];
    if i :| 0 <= i < |us| && Hit(b, us[i], now, k) {
      assert Hit(b, more[i], now, k);
    }
    if Hit(b, u, now, k) {
      assert Hit(b, more[|us|], now, k);
    }
  }

  /** A usage within the window charges the card budget under its card, and under ""
      the line's budget and the one of its own role; nothing else. */
  ghost predicate Charges(u: Usage, b: Budget, now: int, k: string) {
    && u.at + b.period >= now
    && if b.scope == CARD then u.card == k else k == "" && b.scope in {LINE, u.role}
  }

  /** One usage more, wherever it stands in the log, adds its tokens to what it charges. */
  lemma {:induction false} OneUsageMore(b: Budget, us: seq<Usage>, u: Usage, later: seq<Usage>, now: int, k: string)
    ensures Used(b, us + [u] + later, now, k) == Used(b, us + later, now, k) + if Charges(u, b, now, k) then u.tokens else 0
    ensures Reports(b, us + [u] + later, now, k) <==> Reports(b, us + later, now, k) || Charges(u, b, now, k)
  {
    if later == [] {
      assert us + [u] + later == us + [u] && us + later == us && (us + [u])[..|us|] == us;
      ReportsMore(b, us, u, now, k);
    } else {
      var n := |later| - 1;
      var front, last := later[..n], later[n];
      OneUsageMore(b, us, u, front, now, k);
      assert us + [u] + later == (us + [u] + front) + [last] && us + later == (us + front) + [last];
      assert ((us + [u] + front) + [last])[..|us + [u] + front|] == us + [u] + front;
      assert ((us + front) + [last])[..|us + front|] == us + front;
      ReportsMore(b, us + [u] + front, last, now, k);
      ReportsMore(b, us + front, last, now, k);
    }
  }

  /** What other roles spend leaves a role's budget as it is. */
  lemma OtherRolesAreFree(b: Budget, us: seq<Usage>, u: Usage, later: seq<Usage>, now: int, k: string)
    requires b.scope !in {LINE, CARD} && u.role != b.scope && b.tokens >= 1
    ensures StatusOf(b, us + [u] + later, now, k) == StatusOf(b, us + later, now, k)
    ensures Reports(b, us + [u] + later, now, k) <==> Reports(b, us + later, now, k)
  {
    OneUsageMore(b, us, u, later, now, k);
  }

  method LongestWindow(bs: seq<Budget>) returns (window: int)
    requires bs != []
    ensures forall i :: 0 <= i < |bs| ==> bs[i].period <= window
    ensures exists i :: 0 <= i < |bs| && bs[i].period == window
  {
    window := bs[0].period;
    for i := 1 to |bs|
      invariant forall j :: 0 <= j < i ==> bs[j].period <= window
      invariant exists j :: 0 <= j < i && bs[j].period == window
    {
      if bs[i].period > window {
        window := bs[i].period;
      }
    }
  }

  // ---------- the statuses ----------

  lemma UsedMore(b: Budget, us: seq<Usage>, i: nat, now: int)
    requires i < |us|
    ensures forall k :: Used(b, us[..i + 1], now, k) == Used(b, us[..i], now, k) + if Hit(b, us[i], now, k) then us[i].tokens else 0
  {
    assert us[..i + 1][..i] == us[..i];
  }

  /** What one budget has been charged, by key. */
  method Spend(b: Budget, us: seq<Usage>, now: int) returns (spent: map<string, nat>)
    ensures forall k :: k in spent <==> Reports(b, us, now, k)
    ensures forall k :: k in spent ==> spent[k] == Used(b, us, now, k)
  {
    spent := map[];
    for i := 0 to |us|
      invariant forall k :: k in spent <==> exists j :: 0 <= j < i && Hit(b, us[j], now, k)
      invariant forall k :: Used(b, us[..i], now, k) == if k in spent then spent[k] else 0
    {
      var u := us[i];
      UsedMore(b, us, i, now);
      if u.at < now - b.period {
        continue;
      }
      if b.scope == CARD {
        spent := spent[u.card := u.tokens + if u.card in spent then spent[u.card] else 0];
      } else if b.scope == LINE || b.scope == u.role {
        spent := spent["" := u.tokens + if "" in spent then spent[""] else 0];
      }
    }
    assert us[..|us|] == us;
    if b.scope != CARD && |spent| == 0 {
      spent := spent["" := 0];
    }
  }

  /** st is the status of budget b under its card. */
  ghost predicate Belongs(bs: seq<Budget>, us: seq<Usage>, now: int, st: Status, b: nat)
    requires ValidBudgets(bs)
  {
    b < |bs| && Reports(bs[b], us, now, st.card) && st == StatusOf(bs[b], us, now, st.card)
  }

  ghost predicate Owned(bs: seq<Budget>, n: nat, us: seq<Usage>, now: int, st: Status)
    requires ValidBudgets(bs)
  {
    exists b: nat :: b < n && Belongs(bs, us, now, st, b)
  }

  ghost predicate DistinctKeys(sts: seq<Status>) {
    forall i, j :: 0 <= i < j < |sts| ==> sts[i].scope != sts[j].scope || sts[i].card != sts[j].card
  }

  /** out lists exactly one status per key that the first n budgets have to report. */
  ghost predicate StatusesOfFirst(bs: seq<Budget>, n: nat, us: seq<Usage>, now: int, out: seq<Status>)
    requires ValidBudgets(bs) && n <= |bs|
  {
    && (forall i :: 0 <= i < |out| ==> Owned(bs, n, us, now, out[i]))
    && (forall b, k :: 0 <= b < n && Reports(bs[b], us, now, k) ==> StatusOf(bs[b], us, now, k) in out)
    && DistinctKeys(out)
  }

  ghost predicate AreStatuses(bs: seq<Budget>, us: seq<Usage>, now: int, out: seq<Status>)
    requires ValidBudgets(bs)
  {
    StatusesOfFirst(bs, |bs|, us, now, out)
  }

  /** The statuses of one budget, appended in any order of its keys. */
  method AppendStatuses(b: Budget, us: seq<Usage>, now: int, out0: seq<Status>) returns (out: seq<Status>)
    requires b.tokens >= 1 && forall i :: 0 <= i < |out0| ==> out0[i].scope != b.scope
    requires DistinctKeys(out0)
    ensures out0 <= out && DistinctKeys(out)
    ensures forall i :: |out0| <= i < |out| ==> Reports(b, us, now, out[i].card) && out[i] == StatusOf(b, us, now, out[i].card)
    ensures forall k :: Reports(b, us, now, k) ==> StatusOf(b, us, now, k) in out
  {
    out := out0;
    var spent := Spend(b, us, now);
    var todo := spent.Keys;
    while todo != {}
      invariant todo <= spent.Keys && out0 <= out
      invariant forall i :: |out0| <= i < |out| ==>
        out[i].card in spent && out[i].card !in todo && out[i] == StatusOf(b, us, now, out[i].card)
      invariant forall k :: k in spent && k !in todo ==> StatusOf(b, us, now, k) in out
      invariant DistinctKeys(out)
      decreases |todo|
    {
      var k :| k in todo;
      todo := todo - {k};
      var st := StatusFor(b, spent[k], k);
      assert forall x :: x in out ==> x in out + [st];
      out := out + [st];
      assert out[|out| - 1] == st;
    }
  }

  lemma OneBudgetMore(bs: seq<Budget>, n: nat, us: seq<Usage>, now: int, before: seq<Status>, out: seq<Status>)
    requires ValidBudgets(bs) && n < |bs| && StatusesOfFirst(bs, n, us, now, before)
    requires before <= out && DistinctKeys(out)
    requires forall i :: |before| <= i < |out| ==> Reports(bs[n], us, now, out[i].card) && out[i] == StatusOf(bs[n], us, now, out[i].card)
    requires forall k :: Reports(bs[n], us, now, k) ==> StatusOf(bs[n], us, now, k) in out
    ensures StatusesOfFirst(bs, n + 1, us, now, out)
  {
    forall i | 0 <= i < |out| ensures Owned(bs, n + 1, us, now, out[i]) {
      if i < |before| {
        assert out[i] == before[i];
        assert Owned(bs, n, us, now, before[i]);
      } else {
        assert Belongs(bs, us, now, out[i], n);
      }
    }
    assert forall x :: x in before ==> x in out;
  }

  lemma OtherScopes(bs: seq<Budget>, n: nat, us: seq<Usage>, now: int, out: seq<Status>)
    requires ValidBudgets(bs) && n < |bs| && StatusesOfFirst(bs, n, us, now, out)
    ensures forall i :: 0 <= i < |out| ==> out[i].scope != bs[n].scope
  {
    forall i | 0 <= i < |out| ensures out[i].scope != bs[n].scope {
      assert Owned(bs, n, us, now, out[i]);
    }
  }

  method BudgetStatuses(bs: seq<Budget>, us: seq<Usage>, now: int) returns (out: seq<Status>)
    requires ValidBudgets(bs)
    ensures AreStatuses(bs, us, now, out)
  {
    out := [];
    for n := 0 to |bs|
      invariant StatusesOfFirst(bs, n, us, now, out)
    {
      ghost var before := out;
      OtherScopes(bs, n, us, now, out);
      out := AppendStatuses(bs[n], us, now, out);
      OneBudgetMore(bs, n, us, now, before, out);
    }
  }

  // ---------- the notices ----------

  datatype Notice = Warning(scope: string, card: string) | Exhaustion(scope: string, card: string)

  const UNSPENT := Status("", "", 0, 0, 0, 0, false)

  /** The last status under scope and card, or an unspent one. */
  function Was(before: seq<Status>, scope: string, card: string): Status {
    if before == [] then UNSPENT
    else
      var n := |before| - 1;
      if before[n].scope == scope && before[n].card == card then before[n] else Was(before[..n], scope, card)
  }

  function NoticeOf(was: Status, a: Status): seq<Notice> {
    if a.exhausted && !was.exhausted then [Exhaustion(a.scope, a.card)]
    else if !a.exhausted && a.percent >= a.warnPercent && was.percent < a.warnPercent then [Warning(a.scope, a.card)]
    else []
  }

  function Notices(before: seq<Status>, after: seq<Status>): seq<Notice> {
    if after == [] then []
    else
      var n := |after| - 1;
      Notices(before, after[..n]) + NoticeOf(Was(before, after[n].scope, after[n].card), after[n])
  }

  method BudgetNotices(before: seq<Status>, after: seq<Status>) returns (ns: seq<Notice>)
    ensures ns == Notices(before, after)
  {
    ns := [];
    for i := 0 to |after|
      invariant ns == Notices(before, after[..i])
    {
      var a, was := after[i], UNSPENT;
      for j := 0 to |before|
        invariant was == Was(before[..j], a.scope, a.card)
      {
        assert before[..j + 1][..j] == before[..j];
        if before[j].scope == a.scope && before[j].card == a.card {
          was := before[j];
        }
      }
      assert before[..|before|] == before && after[..i + 1][..i] == after[..i];
      if a.exhausted && !was.exhausted {
        ns := ns + [Exhaustion(a.scope, a.card)];
      } else if !a.exhausted && a.percent >= a.warnPercent && was.percent < a.warnPercent {
        ns := ns + [Warning(a.scope, a.card)];
      }
    }
    assert after[..|after|] == after;
  }

  // ---------- what a notice means ----------

  lemma {:induction false} WasAt(before: seq<Status>, i: nat)
    requires DistinctKeys(before) && i < |before|
    ensures Was(before, before[i].scope, before[i].card) == before[i]
  {
    var n := |before| - 1;
    if i < n {
      assert before[..n][i] == before[i];
      WasAt(before[..n], i);
    }
  }

  lemma {:induction false} WasUnspent(before: seq<Status>, scope: string, card: string)
    requires forall i :: 0 <= i < |before| ==> before[i].scope != scope || before[i].card != card
    ensures Was(before, scope, card) == UNSPENT
  {
    if before != [] {
      WasUnspent(before[..|before| - 1], scope, card);
    }
  }

  lemma SameBudget(bs: seq<Budget>, a: nat, b: nat)
    requires ValidBudgets(bs) && a < |bs| && b < |bs| && bs[a].scope == bs[b].scope
    ensures a == b
  {
  }

  /** A status in the list belongs to the budget of its scope. */
  lemma StatusBelongs(bs: seq<Budget>, us: seq<Usage>, now: int, sts: seq<Status>, i: nat, b: nat)
    requires ValidBudgets(bs) && AreStatuses(bs, us, now, sts) && i < |sts| && b < |bs| && sts[i].scope == bs[b].scope
    ensures Reports(bs[b], us, now, sts[i].card) && sts[i] == StatusOf(bs[b], us, now, sts[i].card)
  {
    assert Owned(bs, |bs|, us, now, sts[i]);
    var a: nat :| a < |bs| && Belongs(bs, us, now, sts[i], a);
    SameBudget(bs, a, b);
  }

  lemma StatusListed(bs: seq<Budget>, us: seq<Usage>, now: int, sts: seq<Status>, b: nat, k: string) returns (i: nat)
    requires ValidBudgets(bs) && AreStatuses(bs, us, now, sts) && b < |bs| && Reports(bs[b], us, now, k)
    ensures i < |sts| && sts[i] == StatusOf(bs[b], us, now, k)
  {
    assert StatusOf(bs[b], us, now, k) in sts;
    i :| 0 <= i < |sts| && sts[i] == StatusOf(bs[b], us, now, k);
  }

  /** The status a budget had is found again, or nothing was spent under it. */
  lemma WasMeans(bs: seq<Budget>, us: seq<Usage>, now: int, before: seq<Status>, b: nat, k: string)
    requires ValidBudgets(bs) && AreStatuses(bs, us, now, before) && b < |bs|
    ensures Was(before, bs[b].scope, k).percent == Percent(Used(bs[b], us, now, k), bs[b].tokens)
    ensures Was(before, bs[b].scope, k).exhausted <==> Used(bs[b], us, now, k) >= bs[b].tokens
  {
    if Reports(bs[b], us, now, k) {
      var i := StatusListed(bs, us, now, before, b, k);
      WasAt(before, i);
    } else {
      forall i | 0 <= i < |before| ensures before[i].scope != bs[b].scope || before[i].card != k {
        if before[i].scope == bs[b].scope {
          StatusBelongs(bs, us, now, before, i, b);
        }
      }
      WasUnspent(before, bs[b].scope, k);
      UsedFacts(bs[b], us, now, k);
    }
  }

  lemma {:induction false} InNotices(before: seq<Status>, after: seq<Status>, x: Notice)
    ensures x in Notices(before, after) <==>
      exists i :: 0 <= i < |after| && x in NoticeOf(Was(before, after[i].scope, after[i].card), after[i])
  {
    if after != [] {
      var n := |after| - 1;
      InNotices(before, after[..n], x);
      if i :| 0 <= i < n && x in NoticeOf(Was(before, after[..n][i].scope, after[..n][i].card), after[..n][i]) {
        assert x in NoticeOf(Was(before, after[i].scope, after[i].card), after[i]);
      }
    }
  }

  /** A notice about budget b and key k comes out exactly when its status says so. */
  lemma NoticeIff(bs: seq<Budget>, us: seq<Usage>, now: int, before: seq<Status>, after: seq<Status>, b: nat, x: Notice)
    requires ValidBudgets(bs) && AreStatuses(bs, us, now, after) && b < |bs| && x.scope == bs[b].scope
    ensures x in Notices(before, after) <==>
      Reports(bs[b], us, now, x.card) && x in NoticeOf(Was(before, bs[b].scope, x.card), StatusOf(bs[b], us, now, x.card))
  {
    InNotices(before, after, x);
    if i :| 0 <= i < |after| && x in NoticeOf(Was(before, after[i].scope, after[i].card), after[i]) {
      StatusBelongs(bs, us, now, after, i, b);
    }
    if Reports(bs[b], us, now, x.card) {
      var i := StatusListed(bs, us, now, after, b, x.card);
    }
  }

  ghost predicate Exhausts(b: Budget, before: nat, after: nat) {
    before < b.tokens <= after
  }

  ghost predicate Warns(b: Budget, before: nat, after: nat)
    requires b.tokens >= 1
  {
    after < b.tokens && Percent(before, b.tokens) < WarnOf(b) <= Percent(after, b.tokens)
  }

  /** One report: the notices say which budgets it pushed over a mark. */
  lemma NoticeMeaning(bs: seq<Budget>, us: seq<Usage>, us': seq<Usage>, now: int, before: seq<Status>, after: seq<Status>, b: nat, k: string)
    requires ValidBudgets(bs) && b < |bs|
    requires AreStatuses(bs, us, now, before) && AreStatuses(bs, us', now, after)
    ensures Exhaustion(bs[b].scope, k) in Notices(before, after) <==> Exhausts(bs[b], Used(bs[b], us, now, k), Used(bs[b], us', now, k))
    ensures Warning(bs[b].scope, k) in Notices(before, after) <==> Warns(bs[b], Used(bs[b], us, now, k), Used(bs[b], us', now, k))
  {
    WasMeans(bs, us, now, before, b, k);
    NoticeIff(bs, us', now, before, after, b, Exhaustion(bs[b].scope, k));
    NoticeIff(bs, us', now, before, after, b, Warning(bs[b].scope, k));
    UsedFacts(bs[b], us', now, k);
  }

  // ---------- runs of reports ----------

  /** Every report stays inside every window for the whole run. */
  ghost predicate NothingAges(bs: seq<Budget>, us: seq<Usage>) {
    forall b, i, j :: 0 <= b < |bs| && 0 <= i < |us| && 0 <= j < |us| ==> us[i].at >= us[j].at - bs[b].period
  }

  lemma {:induction false} UsedTimeless(b: Budget, us: seq<Usage>, now: int, now': int, k: string)
    requires forall i :: 0 <= i < |us| ==> us[i].at >= now - b.period && us[i].at >= now' - b.period
    ensures Used(b, us, now, k) == Used(b, us, now', k)
  {
    if us != [] {
      UsedTimeless(b, us[..|us| - 1], now, now', k);
    }
  }

  lemma {:induction false} UsedGrows(b: Budget, us: seq<Usage>, now: int, k: string, i: nat, j: nat)
    requires i <= j <= |us|
    ensures Used(b, us[..i], now, k) <= Used(b, us[..j], now, k)
    decreases j
  {
    if i < j {
      UsedGrows(b, us, now, k, i, j - 1);
      assert us[..j][..j - 1] == us[..j - 1];
    }
  }

  /** The lists metered before and after report i, both at its time. */
  ghost predicate Metered(bs: seq<Budget>, us: seq<Usage>, i: nat, before: seq<Status>, after: seq<Status>)
    requires ValidBudgets(bs) && i < |us|
  {
    AreStatuses(bs, us[..i], us[i].at, before) && AreStatuses(bs, us[..i + 1], us[i].at, after)
  }

  /** What is spent under a key before report i and after it, on the run's clock. */
  ghost function SpentBy(b: Budget, us: seq<Usage>, k: string, i: nat): nat
    requires i <= |us| && us != []
  {
    Used(b, us[..i], us[|us| - 1].at, k)
  }

  lemma SpentGrows(b: Budget, us: seq<Usage>, k: string, i: nat, j: nat)
    requires i <= j <= |us| && us != []
    ensures SpentBy(b, us, k, i) <= SpentBy(b, us, k, j)
  {
    UsedGrows(b, us, us[|us| - 1].at, k, i, j);
  }

  /** A notice about report i is about the run's own totals. */
  lemma NoticeInRun(bs: seq<Budget>, us: seq<Usage>, i: nat, b: nat, k: string, before: seq<Status>, after: seq<Status>)
    requires ValidBudgets(bs) && NothingAges(bs, us) && b < |bs| && i < |us| && Metered(bs, us, i, before, after)
    ensures Exhaustion(bs[b].scope, k) in Notices(before, after) <==>
      Exhausts(bs[b], SpentBy(bs[b], us, k, i), SpentBy(bs[b], us, k, i + 1))
    ensures Warning(bs[b].scope, k) in Notices(before, after) <==>
      Warns(bs[b], SpentBy(bs[b], us, k, i), SpentBy(bs[b], us, k, i + 1))
  {
    NoticeMeaning(bs, us[..i], us[..i + 1], us[i].at, before, after, b, k);
    UsedTimeless(bs[b], us[..i], us[i].at, us[|us| - 1].at, k);
    UsedTimeless(bs[b], us[..i + 1], us[i].at, us[|us| - 1].at, k);
  }

  // ---------- notices over a run ----------

  lemma NoticeIsAbout(was: Status, a: Status, x: Notice)
    ensures |NoticeOf(was, a)| <= 1 && (x in NoticeOf(was, a) ==> x.scope == a.scope && x.card == a.card)
  {
  }

  lemma {:induction false} NotAbout(before: seq<Status>, after: seq<Status>, x: Notice)
    requires forall i :: 0 <= i < |after| ==> after[i].scope != x.scope || after[i].card != x.card
    ensures x !in Notices(before, after)
  {
    if after != [] {
      var n := |after| - 1;
      NotAbout(before, after[..n], x);
      NoticeIsAbout(Was(before, after[n].scope, after[n].card), after[n], x);
    }
  }

  lemma LastKeyIsNew(after: seq<Status>, front: seq<Status>, x: Notice)
    requires DistinctKeys(after) && after != [] && front == after[..|after| - 1]
    requires x.scope == after[|after| - 1].scope && x.card == after[|after| - 1].card
    ensures forall i :: 0 <= i < |front| ==> front[i].scope != x.scope || front[i].card != x.card
  {
  }

  lemma OnceMore(front: seq<Notice>, last: seq<Notice>, x: Notice)
    requires |last| <= 1 && multiset(front)[x] <= 1 && (x in last ==> x !in front)
    ensures multiset(front + last)[x] <= 1
  {
    OfBoth(front, last, x);
    if x in last {
      assert multiset(front)[x] == 0;
    }
  }

  /** One report gives a notice at most once. */
  lemma {:induction false} OnceInAReport(before: seq<Status>, after: seq<Status>, x: Notice)
    requires DistinctKeys(after)
    ensures multiset(Notices(before, after))[x] <= 1
  {
    if after != [] {
      var n := |after| - 1;
      var was := Was(before, after[n].scope, after[n].card);
      OnceInAReport(before, after[..n], x);
      NoticeIsAbout(was, after[n], x);
      if x in NoticeOf(was, after[n]) {
        LastKeyIsNew(after, after[..n], x);
        NotAbout(before, after[..n], x);
      }
      OnceMore(Notices(before, after[..n]), NoticeOf(was, after[n]), x);
    }
  }

  lemma OfBoth(front: seq<Notice>, last: seq<Notice>, x: Notice)
    requires |last| <= 1
    ensures multiset(front + last)[x] == multiset(front)[x] + if x in last then 1 else 0
  {
    assert multiset(front + last) == multiset(front) + multiset(last);
    OfShort(last, x);
  }

  lemma OfShort(ns: seq<Notice>, x: Notice)
    requires |ns| <= 1
    ensures multiset(ns)[x] == if x in ns then 1 else 0
  {
    if |ns| == 1 {
      assert ns == [ns[0]];
    }
  }

  /** ns are the notices report i of the run gives. */
  ghost predicate NoticesOf(bs: seq<Budget>, us: seq<Usage>, i: nat, ns: seq<Notice>)
    requires ValidBudgets(bs) && i < |us|
  {
    exists before, after :: Metered(bs, us, i, before, after) && ns == Notices(before, after)
  }

  /** lists are the notices of the reports of the run. */
  ghost predicate NoticesOfRun(bs: seq<Budget>, us: seq<Usage>, lists: seq<seq<Notice>>)
    requires ValidBudgets(bs)
  {
    |lists| == |us| && forall i :: 0 <= i < |us| ==> NoticesOf(bs, us, i, lists[i])
  }

  /** How often x was announced by the first n reports. */
  ghost function Announced(lists: seq<seq<Notice>>, n: nat, x: Notice): nat
    requires n <= |lists|
  {
    if n == 0 then 0 else Announced(lists, n - 1, x) + multiset(lists[n - 1])[x]
  }

  lemma OnceOrNever(bs: seq<Budget>, us: seq<Usage>, i: nat, before: seq<Status>, after: seq<Status>, x: Notice)
    requires ValidBudgets(bs) && i < |us| && Metered(bs, us, i, before, after)
    ensures multiset(Notices(before, after))[x] == if x in Notices(before, after) then 1 else 0
  {
    OnceInAReport(before, after, x);
  }

  /** A report announces exhaustion once if it exhausts the budget, and otherwise not. */
  lemma ReportExhausts(bs: seq<Budget>, us: seq<Usage>, lists: seq<seq<Notice>>, i: nat, b: nat, k: string)
    requires ValidBudgets(bs) && NothingAges(bs, us) && NoticesOfRun(bs, us, lists) && b < |bs| && i < |us|
    ensures multiset(lists[i])[Exhaustion(bs[b].scope, k)]
         == if Exhausts(bs[b], SpentBy(bs[b], us, k, i), SpentBy(bs[b], us, k, i + 1)) then 1 else 0
  {
    assert NoticesOf(bs, us, i, lists[i]);
    var before, after :| Metered(bs, us, i, before, after) && lists[i] == Notices(before, after);
    NoticeInRun(bs, us, i, b, k, before, after);
    OnceOrNever(bs, us, i, before, after, Exhaustion(bs[b].scope, k));
  }

  /** And a low budget once if it takes it past the mark. */
  lemma ReportWarns(bs: seq<Budget>, us: seq<Usage>, lists: seq<seq<Notice>>, i: nat, b: nat, k: string)
    requires ValidBudgets(bs) && NothingAges(bs, us) && NoticesOfRun(bs, us, lists) && b < |bs| && i < |us|
    ensures bs[b].tokens >= 1
    ensures multiset(lists[i])[Warning(bs[b].scope, k)]
         == if Warns(bs[b], SpentBy(bs[b], us, k, i), SpentBy(bs[b], us, k, i + 1)) then 1 else 0
  {
    assert NoticesOf(bs, us, i, lists[i]);
    var before, after :| Metered(bs, us, i, before, after) && lists[i] == Notices(before, after);
    NoticeInRun(bs, us, i, b, k, before, after);
    OnceOrNever(bs, us, i, before, after, Warning(bs[b].scope, k));
  }

  lemma NothingSpent(b: Budget, us: seq<Usage>, k: string)
    requires us != []
    ensures SpentBy(b, us, k, 0) == 0
  {
    assert us[..0] == [];
  }

  /** Every report announces the exhaustion of b under k exactly when it exhausts it. */
  ghost predicate ExhaustionsTold(b: Budget, us: seq<Usage>, lists: seq<seq<Notice>>, k: string) {
    us != [] && |lists| == |us| && forall i :: 0 <= i < |us| ==>
      multiset(lists[i])[Exhaustion(b.scope, k)] == if Exhausts(b, SpentBy(b, us, k, i), SpentBy(b, us, k, i + 1)) then 1 else 0
  }

  lemma {:induction false} ExhaustionsAddUp(b: Budget, us: seq<Usage>, lists: seq<seq<Notice>>, n: nat, k: string)
    requires ExhaustionsTold(b, us, lists, k) && b.tokens >= 1 && n <= |us|
    ensures Announced(lists, n, Exhaustion(b.scope, k)) == if SpentBy(b, us, k, n) >= b.tokens then 1 else 0
  {
    if n == 0 {
      NothingSpent(b, us, k);
    } else {
      ExhaustionsAddUp(b, us, lists, n - 1, k);
      SpentGrows(b, us, k, n - 1, n);
    }
  }

  /** Over any run in which nothing ages out, exhaustion is announced once if the
      run exhausts the budget, and otherwise never. */
  lemma ExhaustionAnnouncedOnce(bs: seq<Budget>, us: seq<Usage>, lists: seq<seq<Notice>>, b: nat, k: string)
    requires ValidBudgets(bs) && NothingAges(bs, us) && NoticesOfRun(bs, us, lists) && b < |bs| && us != []
    ensures Announced(lists, |us|, Exhaustion(bs[b].scope, k)) == if SpentBy(bs[b], us, k, |us|) >= bs[b].tokens then 1 else 0
  {
    forall i | 0 <= i < |us|
      ensures multiset(lists[i])[Exhaustion(bs[b].scope, k)]
           == if Exhausts(bs[b], SpentBy(bs[b], us, k, i), SpentBy(bs[b], us, k, i + 1)) then 1 else 0
    {
      ReportExhausts(bs, us, lists, i, b, k);
    }
    ExhaustionsAddUp(bs[b], us, lists, |us|, k);
  }

  /** Some of the first n reports took the budget past its warning mark and left it unexhausted. */
  ghost predicate RanLow(b: Budget, us: seq<Usage>, k: string, n: nat)
    requires n <= |us| && us != [] && b.tokens >= 1
  {
    exists i :: 0 <= i < n && Warns(b, SpentBy(b, us, k, i), SpentBy(b, us, k, i + 1))
  }

  lemma RanLowMore(b: Budget, us: seq<Usage>, k: string, n: nat)
    requires n < |us| && b.tokens >= 1
    ensures RanLow(b, us, k, n + 1) <==> RanLow(b, us, k, n) || Warns(b, SpentBy(b, us, k, n), SpentBy(b, us, k, n + 1))
  {
    if i :| 0 <= i < n && Warns(b, SpentBy(b, us, k, i), SpentBy(b, us, k, i + 1)) {
      assert RanLow(b, us, k, n + 1);
    }
  }

  lemma RanLowStaysLow(b: Budget, us: seq<Usage>, k: string, n: nat)
    requires n <= |us| && us != [] && b.tokens >= 1 && RanLow(b, us, k, n)
    ensures Percent(SpentBy(b, us, k, n), b.tokens) >= WarnOf(b)
  {
    var i :| 0 <= i < n && Warns(b, SpentBy(b, us, k, i), SpentBy(b, us, k, i + 1));
    SpentGrows(b, us, k, i + 1, n);
    QuotientMonotone(SpentBy(b, us, k, i + 1) * 100, SpentBy(b, us, k, n) * 100, b.tokens);
  }

  /** A report makes the budget low exactly when it is the first to do so. */
  lemma LowOnce(b: Budget, us: seq<Usage>, k: string, n: nat)
    requires n < |us| && b.tokens >= 1
    ensures Warns(b, SpentBy(b, us, k, n), SpentBy(b, us, k, n + 1)) <==> RanLow(b, us, k, n + 1) && !RanLow(b, us, k, n)
    ensures RanLow(b, us, k, n) ==> RanLow(b, us, k, n + 1)
  {
    RanLowMore(b, us, k, n);
    if RanLow(b, us, k, n) {
      RanLowStaysLow(b, us, k, n);
    }
  }

  /** Every report announces that b is low under k exactly when it makes it so. */
  ghost predicate WarningsTold(b: Budget, us: seq<Usage>, lists: seq<seq<Notice>>, k: string)
    requires b.tokens >= 1
  {
    us != [] && |lists| == |us| && forall i :: 0 <= i < |us| ==>
      multiset(lists[i])[Warning(b.scope, k)] == if Warns(b, SpentBy(b, us, k, i), SpentBy(b, us, k, i + 1)) then 1 else 0
  }

  lemma {:induction false} WarningsAddUp(b: Budget, us: seq<Usage>, lists: seq<seq<Notice>>, n: nat, k: string)
    requires b.tokens >= 1 && WarningsTold(b, us, lists, k) && n <= |us|
    ensures Announced(lists, n, Warning(b.scope, k)) == if RanLow(b, us, k, n) then 1 else 0
  {
    if n > 0 {
      WarningsAddUp(b, us, lists, n - 1, k);
      LowOnce(b, us, k, n - 1);
    }
  }

  /** And a low budget is announced once if some report made it low, and otherwise never. */
  lemma WarningAnnouncedOnce(bs: seq<Budget>, us: seq<Usage>, lists: seq<seq<Notice>>, b: nat, k: string)
    requires ValidBudgets(bs) && NothingAges(bs, us) && NoticesOfRun(bs, us, lists) && b < |bs| && us != []
    ensures bs[b].tokens >= 1
    ensures Announced(lists, |us|, Warning(bs[b].scope, k)) == if RanLow(bs[b], us, k, |us|) then 1 else 0
  {
    assert bs[b].tokens >= 1;
    forall i | 0 <= i < |us|
      ensures multiset(lists[i])[Warning(bs[b].scope, k)]
           == if Warns(bs[b], SpentBy(bs[b], us, k, i), SpentBy(bs[b], us, k, i + 1)) then 1 else 0
    {
      ReportWarns(bs, us, lists, i, b, k);
    }
    WarningsAddUp(bs[b], us, lists, |us|, k);
  }

  /** No status is announced as low once it was announced as exhausted. */
  lemma NoWarningAfterExhaustion(bs: seq<Budget>, us: seq<Usage>, lists: seq<seq<Notice>>, i: nat, j: nat, b: nat, k: string)
    requires ValidBudgets(bs) && NothingAges(bs, us) && NoticesOfRun(bs, us, lists) && b < |bs| && i < j < |us|
    requires Exhaustion(bs[b].scope, k) in lists[i]
    ensures Warning(bs[b].scope, k) !in lists[j]
  {
    ReportExhausts(bs, us, lists, i, b, k);
    ReportWarns(bs, us, lists, j, b, k);
    SpentGrows(bs[b], us, k, i + 1, j + 1);
  }

  // ---------- a report ----------

  /** Two logs that meter alike have the same statuses. */
  lemma SameStatuses(bs: seq<Budget>, us: seq<Usage>, vs: seq<Usage>, now: int, out: seq<Status>)
    requires ValidBudgets(bs) && AreStatuses(bs, us, now, out)
    requires forall b, k :: 0 <= b < |bs| ==> Used(bs[b], us, now, k) == Used(bs[b], vs, now, k)
    requires forall b, k :: 0 <= b < |bs| ==> (Reports(bs[b], us, now, k) <==> Reports(bs[b], vs, now, k))
    ensures AreStatuses(bs, vs, now, out)
  {
    forall i | 0 <= i < |out| ensures Owned(bs, |bs|, vs, now, out[i]) {
      assert Owned(bs, |bs|, us, now, out[i]);
      var b: nat :| b < |bs| && Belongs(bs, us, now, out[i], b);
      assert Belongs(bs, vs, now, out[i], b);
    }
    forall b, k | 0 <= b < |bs| && Reports(bs[b], vs, now, k) ensures StatusOf(bs[b], vs, now, k) in out {
      assert StatusOf(bs[b], us, now, k) == StatusOf(bs[b], vs, now, k);
    }
  }

  lemma CutLogMetersAlike(bs: seq<Budget>, us: seq<Usage>, u: Usage, window: int, now: int)
    requires forall i :: 0 <= i < |bs| ==> bs[i].period <= window
    ensures forall b, k :: 0 <= b < |bs| ==> Used(bs[b], Since(us, now - window), now, k) == Used(bs[b], us, now, k)
    ensures forall b, k :: 0 <= b < |bs| ==> (Reports(bs[b], Since(us, now - window), now, k) <==> Reports(bs[b], us, now, k))
    ensures forall b, k :: 0 <= b < |bs| ==> Used(bs[b], Since(us, now - window) + [u], now, k) == Used(bs[b], us + [u], now, k)
    ensures forall b, k :: 0 <= b < |bs| ==> (Reports(bs[b], Since(us, now - window) + [u], now, k) <==> Reports(bs[b], us + [u], now, k))
  {
    var cut := Since(us, now - window);
    assert (cut + [u])[..|cut|] == cut && (us + [u])[..|us|] == us;
    forall b, k | 0 <= b < |bs|
      ensures Used(bs[b], cut, now, k) == Used(bs[b], us, now, k) && (Reports(bs[b], cut, now, k) <==> Reports(bs[b], us, now, k))
      ensures Used(bs[b], cut + [u], now, k) == Used(bs[b], us + [u], now, k)
      ensures Reports(bs[b], cut + [u], now, k) <==> Reports(bs[b], us + [u], now, k)
    {
      WindowSuffices(bs[b], us, now, window, k);
      ReportsMore(bs[b], cut, u, now, k);
      ReportsMore(bs[b], us, u, now, k);
    }
  }

  /** A station reports usage: meter, record, meter again, tell. Only the longest
      window of the log is read, which changes nothing. */
  method RouteUsage(bs: seq<Budget>, log: seq<Usage>, u: Usage) returns (log': seq<Usage>, ns: seq<Notice>)
    requires ValidBudgets(bs)
    ensures log' == log + [u]
    ensures exists before, after ::
      AreStatuses(bs, log, u.at, before) && AreStatuses(bs, log', u.at, after) && ns == Notices(before, after)
  {
    if bs == [] {
      assert AreStatuses(bs, log, u.at, []) && AreStatuses(bs, log + [u], u.at, []) && [] == Notices([], []);
      return log + [u], [];
    }
    var window := LongestWindow(bs);
    var recent := Since(log, u.at - window);
    var before := BudgetStatuses(bs, recent, u.at);
    log' := log + [u];
    var after := BudgetStatuses(bs, recent + [u], u.at);
    CutLogMetersAlike(bs, log, u, window, u.at);
    SameStatuses(bs, recent, log, u.at, before);
    SameStatuses(bs, recent + [u], log', u.at, after);
    ns := BudgetNotices(before, after);
  }

  /** The reports of a run, one after the other. */
  method RouteAll(bs: seq<Budget>, us: seq<Usage>) returns (lists: seq<seq<Notice>>)
    requires ValidBudgets(bs)
    ensures NoticesOfRun(bs, us, lists)
  {
    lists := [];
    var log: seq<Usage> := [];
    for i := 0 to |us|
      invariant |lists| == i && log == us[..i]
      invariant forall j :: 0 <= j < i ==> NoticesOf(bs, us, j, lists[j])
    {
      var ns;
      log, ns := RouteUsage(bs, log, us[i]);
      assert log == us[..i + 1];
      assert NoticesOf(bs, us, i, ns);
      lists := lists + [ns];
    }
  }
}

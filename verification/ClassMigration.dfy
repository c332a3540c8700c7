/** The two migrations of existing ingresses to another ingress class, against a
    cluster whose calls fail in any pattern.  A failed call has no effect, and
    nobody else writes. */
module ClassMigration {
  import opened Text
  import opened Wire

  const CLASS_ANNOTATION := "kubernetes.io/ingress.class"

  const NGINX := "nginx"

  // ----- Normalized class names -----

  predicate IsSpace(c: char) {
    c == ' ' || '\t' <= c <= '\r'
  }

  function TrimLeft(s: string): string {
    if s != "" && IsSpace(s[0]) then TrimLeft(s[1..]) else s
  }

  function TrimRight(s: string): string {
    if s != "" && IsSpace(s[|s| - 1]) then TrimRight(s[..|s| - 1]) else s
  }

  /** `strings.ToLower(strings.TrimSpace(s))`. */
  function Normal(s: string): string {
    Lower(TrimRight(TrimLeft(s)))
  }

  lemma {:induction false} TrimLeftEdge(s: string)
    ensures TrimLeft(s) == "" || !IsSpace(TrimLeft(s)[0])
  {
    if s != "" && IsSpace(s[0]) {
      TrimLeftEdge(s[1..]);
    }
  }

  lemma {:induction false} TrimRightEdge(s: string)
    ensures TrimRight(s) == "" || !IsSpace(TrimRight(s)[|TrimRight(s)| - 1])
    ensures TrimRight(s) <= s
  {
    if s != "" && IsSpace(s[|s| - 1]) {
      TrimRightEdge(s[..|s| - 1]);
    }
  }

  /** A normalized name is its own normal form. */
  lemma NormalIsIdempotent(s: string)
    ensures Normal(Normal(s)) == Normal(s)
  {
    var t := TrimRight(TrimLeft(s));
    TrimLeftEdge(s);
    TrimRightEdge(TrimLeft(s));
    var n := Normal(s);
    assert n != "" ==> n[0] == LowerChar(t[0]) && n[|n| - 1] == LowerChar(t[|t| - 1]);
    assert TrimLeft(n) == n && TrimRight(n) == n;
    assert Lower(n) == n;
  }

  predicate AllSpace(s: string) {
    forall i | 0 <= i < |s| :: s[i] in {' ', '\t', '\n', (11 as char), (12 as char), '\r'}
  }

  /** Spaces around a name and the case of its letters do not matter, and nothing else is
      lost. */
  lemma NormalMeans(before: string, name: string, after: string)
    requires AllSpace(before) && AllSpace(after)
    requires name == "" || (!IsSpace(name[0]) && !IsSpace(name[|name| - 1]))
    ensures Normal(before + name + after) == Lower(name)
  {
    TrimLeftDrops(before, name + after);
    assert before + name + after == before + (name + after);
    if name == "" {
      TrimLeftDrops(after, "");
      assert name + after == after + "";
    } else {
      TrimRightDrops(name, after);
    }
  }

  lemma {:induction false} TrimLeftDrops(before: string, s: string)
    requires AllSpace(before)
    ensures TrimLeft(before + s) == TrimLeft(s)
  {
    if before == "" {
      assert before + s == s;
    } else {
      assert (before + s)[1..] == before[1..] + s;
      TrimLeftDrops(before[1..], s);
    }
  }

  lemma {:induction false} TrimRightDrops(s: string, after: string)
    requires AllSpace(after) && s != "" && !IsSpace(s[|s| - 1])
    ensures TrimRight(s + after) == s
  {
    if after == "" {
      assert s + after == s;
    } else {
      assert (s + after)[..|s + after| - 1] == s + after[..|after| - 1];
      TrimRightDrops(s, after[..|after| - 1]);
    }
  }

  lemma NginxIsNormal()
    ensures Normal(NGINX) == NGINX
  {
    assert TrimRight(NGINX) == NGINX;
    assert Lower(NGINX) == NGINX;
  }

  // ----- Ingress objects -----

  type Key = (string, string)

  /** `rest` stands for every other field. */
  datatype Ingress = Ingress(specClass: Option<string>, annotations: map<string, string>, rest: int)

  function Annotation(ing: Ingress): string {
    if CLASS_ANNOTATION in ing.annotations then ing.annotations[CLASS_ANNOTATION] else ""
  }

  function SpecClass(ing: Ingress): string {
    if ing.specClass.Some? then ing.specClass.value else ""
  }

  /** Both places that can name the class name the target. */
  predicate OnTarget(ing: Ingress, target: string) {
    Normal(SpecClass(ing)) == target && Normal(Annotation(ing)) == target
  }

  /** One of the two places names the class. */
  predicate UsesClass(ing: Ingress, name: string) {
    || (ing.specClass.Some? && Normal(ing.specClass.value) == Normal(name))
    || (CLASS_ANNOTATION in ing.annotations && Normal(ing.annotations[CLASS_ANNOTATION]) == Normal(name))
  }

  function SetAnnotation(ing: Ingress, name: string): Ingress {
    ing.(annotations := ing.annotations[CLASS_ANNOTATION := name])
  }

  /** `updateIngressClassFields`. */
  function Moved(ing: Ingress, name: string): Ingress {
    SetAnnotation(ing, Normal(name)).(specClass := Some(Normal(name)))
  }

  /** Nothing but the class differs. */
  predicate SameOtherwise(a: Ingress, b: Ingress) {
    a.rest == b.rest && a.annotations - {CLASS_ANNOTATION} == b.annotations - {CLASS_ANNOTATION}
  }

  /** An ingress uses a class when its spec or its annotation names it, up to case and
      spaces, and is on target only when both do. */
  lemma ClassMeans(ing: Ingress, name: string)
    ensures UsesClass(ing, name) <==>
            || (exists c :: ing.specClass == Some(c) && Normal(c) == Normal(name))
            || ("kubernetes.io/ingress.class" in ing.annotations
                && Normal(ing.annotations["kubernetes.io/ingress.class"]) == Normal(name))
    ensures name != "" ==>
              (OnTarget(ing, name) <==>
               && (exists c :: ing.specClass == Some(c) && Normal(c) == name)
               && "kubernetes.io/ingress.class" in ing.annotations
               && Normal(ing.annotations["kubernetes.io/ingress.class"]) == name)
  {
  }

  lemma MovedIsMoved(ing: Ingress, name: string)
    ensures UsesClass(Moved(ing, name), NGINX) <==> Normal(name) == NGINX
    ensures OnTarget(Moved(ing, name), Normal(name)) && SameOtherwise(Moved(ing, name), ing)
  {
    NormalIsIdempotent(name);
    NginxIsNormal();
  }

  // ----- The cluster -----

  datatype Outcome = Success | WebhookBlocked | OtherFailure

  /** `outcomes(k)` decides the k-th call: any function is a failure pattern. */
  class Cluster {
    var ingresses: map<Key, Ingress>
    var calls: nat
    const outcomes: nat -> Outcome
    ghost var updates: nat
    ghost var cleanups: nat

    constructor (ingresses: map<Key, Ingress>, outcomes: nat -> Outcome)
      ensures this.ingresses == ingresses && this.outcomes == outcomes
      ensures calls == updates == cleanups == 0
    {
      this.ingresses, this.outcomes := ingresses, outcomes;
      calls, updates, cleanups := 0, 0, 0;
    }

    /** All ingresses, in any order. */
    method List() returns (keys: Option<seq<Key>>)
      modifies this`calls
      ensures keys.None? <==> outcomes(old(calls)) != Success
      ensures keys.Some? ==> Distinct(keys.value) && forall k :: k in keys.value <==> k in ingresses
    {
      calls := calls + 1;
      if outcomes(calls - 1) != Success {
        return None;
      }
      var listed: seq<Key> := [];
      var left := ingresses.Keys;
      while left != {}
        invariant left <= ingresses.Keys && calls == old(calls) + 1
        invariant Distinct(listed) && forall k :: k in listed <==> k in ingresses && k !in left
      {
        var k :| k in left;
        left := left - {k};
        listed := listed + [k];
      }
      return Some(listed);
    }

    method Update(key: Key, ing: Ingress) returns (outcome: Outcome)
      modifies this`ingresses, this`calls, this`updates
      ensures outcome == outcomes(old(calls)) && calls == old(calls) + 1
      ensures ingresses == if outcome == Success then old(ingresses)[key := ing] else old(ingresses)
      ensures updates == old(updates) + 1
    {
      outcome := outcomes(calls);
      calls, updates := calls + 1, updates + 1;
      if outcome == Success {
        ingresses := ingresses[key := ing];
      }
    }

    method Get(key: Key) returns (ing: Option<Ingress>)
      modifies this`calls
      ensures ing == if outcomes(old(calls)) == Success && key in ingresses then Some(ingresses[key]) else None
      ensures calls == old(calls) + 1
    {
      var outcome := outcomes(calls);
      calls := calls + 1;
      return if outcome == Success && key in ingresses then Some(ingresses[key]) else None;
    }

    /** `cleanupStaleNginxAdmissionWebhooksForClient`: touches no ingress. */
    method CleanupWebhooks() returns (ok: bool)
      modifies this`calls, this`cleanups
      ensures ok == (outcomes(old(calls)) == Success) && calls == old(calls) + 1
      ensures cleanups == old(cleanups) + 1
    {
      ok := outcomes(calls) == Success;
      calls, cleanups := calls + 1, cleanups + 1;
    }
  }

  ghost predicate Distinct(keys: seq<Key>) {
    forall i, j | 0 <= i < j < |keys| :: keys[i] != keys[j]
  }

  /** How many of the keys name an ingress with property `p`. */
  ghost function Count(keys: seq<Key>, m: map<Key, Ingress>, p: Ingress -> bool): nat
    requires forall k | k in keys :: k in m
  {
    if keys == [] then 0
    else Count(keys[..|keys| - 1], m, p) + if p(m[keys[|keys| - 1]]) then 1 else 0
  }

  lemma {:induction false} CountIgnoresOthers(keys: seq<Key>, m: map<Key, Ingress>, n: map<Key, Ingress>,
                                              p: Ingress -> bool)
    requires forall k | k in keys :: k in m && k in n && m[k] == n[k]
    ensures Count(keys, m, p) == Count(keys, n, p)
  {
    if keys != [] {
      CountIgnoresOthers(keys[..|keys| - 1], m, n, p);
    }
  }

  /** One more key was handled, and only its ingress may have changed. */
  lemma CountOneMore(keys: seq<Key>, i: nat, m: map<Key, Ingress>, n: map<Key, Ingress>, p: Ingress -> bool)
    requires i < |keys| && Distinct(keys)
    requires forall k | k in keys :: k in m && k in n && (k != keys[i] ==> m[k] == n[k])
    ensures Count(keys[..i + 1], n, p) == Count(keys[..i], m, p) + if p(n[keys[i]]) then 1 else 0
  {
    assert keys[..i + 1][..i] == keys[..i];
    forall k | k in keys[..i]
      ensures k != keys[i]
    {
      var j :| 0 <= j < i && keys[j] == k;
    }
    CountIgnoresOthers(keys[..i], m, n, p);
  }

  datatype Verdict = Switched | Skipped | Failed

  /** What handling the ingress of `key` does to the cluster's objects. */
  ghost predicate Handled(key: Key, before: map<Key, Ingress>, after: map<Key, Ingress>, verdict: Verdict) {
    && key in before && after.Keys == before.Keys
    && (forall k | k in before && k != key :: after[k] == before[k])
    && SameOtherwise(after[key], before[key])
    && (!verdict.Switched? ==> after[key] == before[key])
  }

  /** From the `n`-th call on the cleanup, if it is due, the refresh and the second update
      succeed. */
  predicate RetryWorks(c: Cluster, n: nat, attempted: bool) {
    && c.outcomes(n) == Success && c.outcomes(n + 1) == Success
    && (attempted || c.outcomes(n + 2) == Success)
  }

  /** The update succeeds, or it is blocked by the webhook and the retry works. */
  predicate GetsThrough(c: Cluster, n: nat, attempted: bool) {
    c.outcomes(n) == Success || (c.outcomes(n) == WebhookBlocked && RetryWorks(c, n + 1, attempted))
  }

  datatype Report = Refused | Unlisted | Done(switched: nat, skipped: nat, failed: nat)

  // ----- Switching everything to a class -----

  /** The loop body: skip what is on target, update the rest, and after a webhook
      error clean up once per run, refresh and retry. */
  method SwitchOne(c: Cluster, key: Key, target: string, attempted: bool)
    returns (verdict: Verdict, nowAttempted: bool)
    requires key in c.ingresses && target == Normal(target)
    modifies c
    ensures Handled(key, old(c.ingresses), c.ingresses, verdict)
    ensures verdict.Skipped? <==> OnTarget(old(c.ingresses[key]), target)
    ensures verdict.Failed? <==> !OnTarget(c.ingresses[key], target)
    ensures verdict.Switched? <==> !OnTarget(old(c.ingresses[key]), target) && GetsThrough(c, old(c.calls), attempted)
    ensures !verdict.Skipped? ==> (nowAttempted <==> attempted || c.outcomes(old(c.calls)) == WebhookBlocked)
    ensures verdict.Skipped? ==> c.updates == old(c.updates) && nowAttempted == attempted
    ensures c.cleanups == old(c.cleanups) + if nowAttempted && !attempted then 1 else 0
    ensures attempted ==> nowAttempted
  {
    nowAttempted := attempted;
    var ing := c.ingresses[key];
    var changed := false;
    if Normal(SpecClass(ing)) != target {
      ing := ing.(specClass := Some(target));
      changed := true;
    }
    if Normal(Annotation(ing)) != target {
      ing := SetAnnotation(ing, target);
      changed := true;
    }
    if !changed {
      return Skipped, nowAttempted;
    }
    var outcome := c.Update(key, ing);
    if outcome == Success {
      return Switched, nowAttempted;
    }
    if outcome != WebhookBlocked {
      return Failed, nowAttempted;
    }
    verdict := SwitchRetry(c, key, target, attempted);
    return verdict, true;
  }

  /** The cleanup, if it is still due, the refresh and the second update. */
  method SwitchRetry(c: Cluster, key: Key, target: string, attempted: bool) returns (verdict: Verdict)
    requires key in c.ingresses && target == Normal(target) && !OnTarget(c.ingresses[key], target)
    modifies c
    ensures Handled(key, old(c.ingresses), c.ingresses, verdict) && !verdict.Skipped?
    ensures verdict.Failed? <==> !OnTarget(c.ingresses[key], target)
    ensures verdict.Switched? <==> RetryWorks(c, old(c.calls), attempted)
    ensures c.cleanups == old(c.cleanups) + if attempted then 0 else 1
  {
    if !attempted {
      var cleaned := c.CleanupWebhooks();
      if !cleaned {
        return Failed;
      }
    }
    var refreshed := c.Get(key);
    if refreshed.None? {
      return Failed;
    }
    var fresh' := refreshed.value;
    if Normal(SpecClass(fresh')) != target {
      fresh' := fresh'.(specClass := Some(target));
    }
    fresh' := SetAnnotation(fresh', target);
    var outcome := c.Update(key, fresh');
    return if outcome == Success then Switched else Failed;
  }

  function OffTarget(target: string): Ingress -> bool {
    i => !OnTarget(i, target)
  }

  /** The loop's tally after the first `i` keys, with `wrong` what an ingress must
      not be afterwards: skipped are those that were right, failed those that still
      are wrong, and the ingresses not reached yet are untouched. */
  ghost predicate Tally(keys: seq<Key>, i: nat, before: map<Key, Ingress>, now: map<Key, Ingress>,
                        wrong: Ingress -> bool, report: Report)
  {
    && i <= |keys| && (forall k | k in keys :: k in before) && now.Keys == before.Keys
    && (forall k | k in before :: SameOtherwise(now[k], before[k]))
    && (forall k | k in before && !wrong(before[k]) :: now[k] == before[k])
    && (forall k | k in keys[i..] :: now[k] == before[k])
    && report.Done? && report.switched + report.skipped + report.failed == i
    && report.failed == Count(keys[..i], now, wrong)
    && report.skipped == i - Count(keys[..i], before, wrong)
  }

  function Add(report: Report, verdict: Verdict): Report
    requires report.Done?
  {
    match verdict
    case Switched => report.(switched := report.switched + 1)
    case Skipped => report.(skipped := report.skipped + 1)
    case Failed => report.(failed := report.failed + 1)
  }

  lemma TallyOneMore(keys: seq<Key>, i: nat, before: map<Key, Ingress>, was: map<Key, Ingress>,
                     now: map<Key, Ingress>, wrong: Ingress -> bool, report: Report, verdict: Verdict)
    requires i < |keys| && Distinct(keys) && Tally(keys, i, before, was, wrong, report)
    requires Handled(keys[i], was, now, verdict)
    requires verdict.Skipped? <==> !wrong(was[keys[i]])
    requires verdict.Failed? <==> wrong(now[keys[i]])
    ensures Tally(keys, i + 1, before, now, wrong, Add(report, verdict))
  {
    assert keys[i..][0] == keys[i] && keys[i] in keys[i..];
    CountOneMore(keys, i, was, now, wrong);
    CountOneMore(keys, i, before, before, wrong);
    forall k | k in keys[i + 1..]
      ensures now[k] == before[k]
    {
      var j :| i + 1 <= j < |keys| && keys[j] == k;
      assert k in keys[i..] && k != keys[i];
    }
  }

  lemma {:induction false} NoneCounted(keys: seq<Key>, m: map<Key, Ingress>, wrong: Ingress -> bool)
    requires forall k | k in keys :: k in m
    ensures Count(keys, m, wrong) == 0 <==> forall k | k in keys :: !wrong(m[k])
  {
    if keys != [] {
      var rest, last := keys[..|keys| - 1], keys[|keys| - 1];
      NoneCounted(rest, m, wrong);
      assert keys == rest + [last];
    }
  }

  /** What a finished run reports about the cluster it leaves: every ingress is
      accounted for once, and the failed ones are exactly those still wrong. */
  ghost predicate Accounted(keys: seq<Key>, before: map<Key, Ingress>, now: map<Key, Ingress>,
                            wrong: Ingress -> bool, report: Report)
  {
    && Distinct(keys) && (forall k :: k in keys <==> k in before)
    && Tally(keys, |keys|, before, now, wrong, report)
  }

  /** No failures means nothing is wrong any more; and when nothing was wrong the
      run switched nothing and changed nothing. */
  lemma AccountedEnds(keys: seq<Key>, before: map<Key, Ingress>, now: map<Key, Ingress>,
                      wrong: Ingress -> bool, report: Report)
    requires Accounted(keys, before, now, wrong, report)
    ensures report.failed == 0 <==> forall k | k in now :: !wrong(now[k])
    ensures (forall k | k in before :: !wrong(before[k])) ==>
              now == before && report.switched == report.failed == 0
  {
    assert keys[..|keys|] == keys;
    NoneCounted(keys, now, wrong);
    NoneCounted(keys, before, wrong);
  }

  /** Switches the class of everything that is not on target yet.  The webhook
      cleanup runs at most once, whatever fails. */
  method SwitchExistingIngressesToClass(c: Cluster, targetClass: string)
    returns (report: Report, ghost keys: seq<Key>)
    modifies c
    ensures report.Refused? <==> Normal(targetClass) == ""
    ensures !report.Done? ==> c.ingresses == old(c.ingresses) && c.updates == old(c.updates)
    ensures report.Done? ==>
              Accounted(keys, old(c.ingresses), c.ingresses, OffTarget(Normal(targetClass)), report)
    ensures c.cleanups <= old(c.cleanups) + 1
    ensures (forall k | k in old(c.ingresses) :: OnTarget(old(c.ingresses)[k], Normal(targetClass))) ==>
              c.updates == old(c.updates)
    ensures report.Done? && (forall k :: c.outcomes(k) == Success) ==> report.failed == 0
  {
    var target := Normal(targetClass);
    NormalIsIdempotent(targetClass);
    if target == "" {
      return Refused, [];
    }
    var listed := c.List();
    if listed.None? {
      return Unlisted, [];
    }
    var items := listed.value;
    keys := items;
    ghost var before := c.ingresses;
    report := Done(0, 0, 0);
    var attempted := false;
    for i := 0 to |items|
      invariant Tally(items, i, before, c.ingresses, OffTarget(target), report)
      invariant c.cleanups == old(c.cleanups) + if attempted then 1 else 0
      invariant (forall k | k in before :: OnTarget(before[k], target)) ==> c.updates == old(c.updates)
      invariant (forall k :: c.outcomes(k) == Success) ==> report.failed == 0
    {
      report, attempted := SwitchTurn(c, items, i, target, attempted, before, report);
    }
  }

  /** One turn of that loop. */
  method SwitchTurn(c: Cluster, items: seq<Key>, i: nat, target: string, attempted: bool,
                    ghost before: map<Key, Ingress>, sofar: Report)
    returns (report: Report, nowAttempted: bool)
    requires target == Normal(target) && i < |items| && Distinct(items)
    requires Tally(items, i, before, c.ingresses, OffTarget(target), sofar)
    modifies c
    ensures Tally(items, i + 1, before, c.ingresses, OffTarget(target), report)
    ensures c.cleanups == old(c.cleanups) + if nowAttempted && !attempted then 1 else 0
    ensures attempted ==> nowAttempted
    ensures (forall k | k in before :: OnTarget(before[k], target)) ==> c.updates == old(c.updates)
    ensures (forall k :: c.outcomes(k) == Success) ==> report.failed == sofar.failed
  {
    var verdict;
    ghost var was := c.ingresses;
    assert items[i] in items[i..] && items[i] in items;
    verdict, nowAttempted := SwitchOne(c, items[i], target, attempted);
    TallyOneMore(items, i, before, was, c.ingresses, OffTarget(target), sofar, verdict);
    report := Add(sofar, verdict);
  }

  /** A run without failures leaves nothing for a second one: that one skips every
      ingress and changes none. */
  lemma SecondRunChangesNothing(keys: seq<Key>, again: seq<Key>, before: map<Key, Ingress>,
                                between: map<Key, Ingress>, after: map<Key, Ingress>,
                                wrong: Ingress -> bool, first: Report, second: Report)
    requires Accounted(keys, before, between, wrong, first) && first.failed == 0
    requires Accounted(again, between, after, wrong, second)
    ensures second == Done(0, first.switched + first.skipped, 0) && after == between
  {
    AccountedEnds(keys, before, between, wrong, first);
    AccountedEnds(again, between, after, wrong, second);
    SameLength(keys, again);
  }

  lemma SameLength(a: seq<Key>, b: seq<Key>)
    requires Distinct(a) && Distinct(b) && forall k :: k in a <==> k in b
    ensures |a| == |b|
  {
    DistinctSize(a);
    DistinctSize(b);
    assert (set k | k in a) == (set k | k in b);
  }

  lemma {:induction false} DistinctSize(a: seq<Key>)
    requires Distinct(a)
    ensures |set k | k in a| == |a|
  {
    if a != [] {
      var rest, last := a[..|a| - 1], a[|a| - 1];
      DistinctSize(rest);
      assert (set k | k in a) == (set k | k in rest) + {last};
      assert last !in rest;
    }
  }

  // ----- Moving the nginx ingresses -----

  function StillNginx(): Ingress -> bool {
    i => UsesClass(i, NGINX)
  }

  /** The class the Traefik controller moves ingresses to. */
  const INGRESS_CLASS := "traefik"

  lemma TraefikIsNotNginx()
    ensures Normal(INGRESS_CLASS) != NGINX
  {
    assert TrimRight(INGRESS_CLASS) == INGRESS_CLASS;
    assert Lower(INGRESS_CLASS)[0] == 't';
  }

  /** The loop body: leave other classes alone, move the rest, and after a webhook
      error clean up once per run, refresh and retry. */
  method MigrateOne(c: Cluster, key: Key, attempted: bool)
    returns (verdict: Verdict, nowAttempted: bool)
    requires key in c.ingresses
    modifies c
    ensures Handled(key, old(c.ingresses), c.ingresses, verdict)
    ensures verdict.Skipped? <==> !UsesClass(old(c.ingresses[key]), NGINX)
    ensures verdict.Skipped? ==> c.updates == old(c.updates) && nowAttempted == attempted
    ensures verdict.Switched? ==> c.ingresses[key] == Moved(old(c.ingresses[key]), INGRESS_CLASS)
    ensures verdict.Switched? <==> UsesClass(old(c.ingresses[key]), NGINX) && GetsThrough(c, old(c.calls), attempted)
    ensures !verdict.Skipped? ==> (nowAttempted <==> attempted || c.outcomes(old(c.calls)) == WebhookBlocked)
    ensures c.cleanups == old(c.cleanups) + if nowAttempted && !attempted then 1 else 0
    ensures attempted ==> nowAttempted
  {
    nowAttempted := attempted;
    var ing := c.ingresses[key];
    if !UsesClass(ing, NGINX) {
      return Skipped, nowAttempted;
    }
    MovedIsMoved(ing, INGRESS_CLASS);
    var outcome := c.Update(key, Moved(ing, INGRESS_CLASS));
    if outcome == Success {
      return Switched, nowAttempted;
    }
    if outcome != WebhookBlocked {
      return Failed, nowAttempted;
    }
    verdict := MigrateRetry(c, key, attempted);
    return verdict, true;
  }

  method MigrateRetry(c: Cluster, key: Key, attempted: bool) returns (verdict: Verdict)
    requires key in c.ingresses
    modifies c
    ensures Handled(key, old(c.ingresses), c.ingresses, verdict) && !verdict.Skipped?
    ensures verdict.Switched? ==> c.ingresses[key] == Moved(old(c.ingresses[key]), INGRESS_CLASS)
    ensures verdict.Switched? <==> RetryWorks(c, old(c.calls), attempted)
    ensures c.cleanups == old(c.cleanups) + if attempted then 0 else 1
  {
    MovedIsMoved(c.ingresses[key], INGRESS_CLASS);
    if !attempted {
      var cleaned := c.CleanupWebhooks();
      if !cleaned {
        return Failed;
      }
    }
    var refreshed := c.Get(key);
    if refreshed.None? {
      return Failed;
    }
    var outcome := c.Update(key, Moved(refreshed.value, INGRESS_CLASS));
    return if outcome == Success then Switched else Failed;
  }

  /** Moves every nginx ingress to the controller's class; ingresses of other
      classes stay exactly as they were. */
  method MigrateExistingNginxIngresses(c: Cluster) returns (report: Report, ghost keys: seq<Key>)
    modifies c
    ensures report.Done? || report.Unlisted?
    ensures report.Unlisted? ==> c.ingresses == old(c.ingresses) && c.updates == old(c.updates)
    ensures report.Done? ==> Accounted(keys, old(c.ingresses), c.ingresses, StillNginx(), report)
    ensures c.cleanups <= old(c.cleanups) + 1
    ensures (forall k | k in old(c.ingresses) :: !UsesClass(old(c.ingresses)[k], NGINX)) ==>
              c.updates == old(c.updates) && c.cleanups == old(c.cleanups)
    ensures report.Done? && (forall k :: c.outcomes(k) == Success) ==> report.failed == 0
  {
    TraefikIsNotNginx();
    var listed := c.List();
    if listed.None? {
      return Unlisted, [];
    }
    var items := listed.value;
    keys := items;
    ghost var before := c.ingresses;
    report := Done(0, 0, 0);
    var attempted := false;
    for i := 0 to |items|
      invariant Tally(items, i, before, c.ingresses, StillNginx(), report)
      invariant c.cleanups == old(c.cleanups) + if attempted then 1 else 0
      invariant (forall k | k in before :: !UsesClass(before[k], NGINX)) ==> c.updates == old(c.updates) && !attempted
      invariant (forall k :: c.outcomes(k) == Success) ==> report.failed == 0
    {
      var verdict;
      ghost var was := c.ingresses;
      assert items[i] in items;
      MovedIsMoved(c.ingresses[items[i]], INGRESS_CLASS);
      verdict, attempted := MigrateOne(c, items[i], attempted);
      TallyOneMore(items, i, before, was, c.ingresses, StillNginx(), report, verdict);
      report := Add(report, verdict);
    }
  }
}

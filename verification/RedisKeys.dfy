/**
 * The Redis keys of budget, reservation and rate-limit counters, and the proof that no two
 * counters share a key. The other modules address counters by BudgetKey and RateKey values.
 */
module RedisKeys {
  import opened Text
  import opened Calendar

  // ---------------------------------------------------------------- bucket labels

  function Label(b: Bucket): string
    requires ValidBucket(b)
  {
    match b
    case MonthOf(y, m) => Signed(y) + "-" + TwoDigits(m)
    case WeekOf(y, w) => "w" + (Signed(y) + "-" + TwoDigits(w))
    case DayOf(y, m, d) => Signed(y) + "-" + TwoDigits(m) + "-" + TwoDigits(d)
  }

  /** Calendar fields fit in two digits. */
  predicate ValidBucket(b: Bucket) {
    match b
    case MonthOf(_, m) => 0 <= m < 100
    case WeekOf(_, w) => 0 <= w < 100
    case DayOf(_, m, d) => 0 <= m < 100 && 0 <= d < 100
  }

  lemma BucketsAreValid(p: Period, t: Instant)
    ensures ValidBucket(BucketOf(p, t))
  {
    hide NewYear, Year;
    CivilDateCorrect(DayIndex(t));
    IsoWeekCorrect(DayIndex(t));
  }

  lemma TwoDigitsFree(n: nat, c: char)
    requires n < 100 && !IsDigit(c)
    ensures c !in TwoDigits(n)
  {
    Width(n);
  }

  /** A rendered number has a dash in front or nowhere, so it is no rendered "number-part". */
  lemma SignedIsNotDashed(n: int, y: int, x: string)
    ensures Signed(n) != Signed(y) + "-" + x
  {
    DecimalDigits(if n < 0 then -n else n);
    DecimalDigits(if y < 0 then -y else y);
    var s := Signed(y) + "-" + x;
    assert s[|Signed(y)|] == '-' && |Signed(y)| >= 1;
    assert forall i :: 1 <= i < |Signed(n)| ==> Signed(n)[i] != '-';
  }

  lemma YearAndPartInjective(y: int, a: nat, z: int, b: nat)
    requires a < 100 && b < 100
    requires Signed(y) + "-" + TwoDigits(a) == Signed(z) + "-" + TwoDigits(b)
    ensures y == z && a == b
  {
    TwoDigitsFree(a, '-');
    TwoDigitsFree(b, '-');
    TailCancel('-', Signed(y), TwoDigits(a), Signed(z), TwoDigits(b));
    SignedInjective(y, z);
    TwoDigitsInjective(a, b);
  }

  lemma LabelStart(b: Bucket)
    requires ValidBucket(b)
    ensures |Label(b)| > 0 && (b.WeekOf? <==> Label(b)[0] == 'w')
  {
    var y := if b.WeekOf? then b.isoYear else b.year;
    DecimalDigits(if y < 0 then -y else y);
    assert Signed(y)[0] == '-' || IsDigit(Signed(y)[0]);
  }

  lemma LabelFree(b: Bucket)
    requires ValidBucket(b)
    ensures ':' !in Label(b)
  {
    match b
    case MonthOf(y, m) => SignedFree(y, ':'); TwoDigitsFree(m, ':');
    case WeekOf(y, w) => SignedFree(y, ':'); TwoDigitsFree(w, ':');
    case DayOf(y, m, d) => SignedFree(y, ':'); TwoDigitsFree(m, ':'); TwoDigitsFree(d, ':');
  }

  /** Labels of different buckets differ, within and across the three period types. */
  lemma LabelInjective(a: Bucket, b: Bucket)
    requires ValidBucket(a) && ValidBucket(b) && Label(a) == Label(b)
    ensures a == b
  {
    LabelStart(a);
    LabelStart(b);
    match (a, b)
    case (MonthOf(y, m), MonthOf(z, n)) => YearAndPartInjective(y, m, z, n);
    case (WeekOf(y, m), WeekOf(z, n)) =>
      assert Label(a)[1..] == Signed(y) + "-" + TwoDigits(m);
      assert Label(b)[1..] == Signed(z) + "-" + TwoDigits(n);
      YearAndPartInjective(y, m, z, n);
    case (DayOf(y, m, d), DayOf(z, n, e)) =>
      TwoDigitsFree(d, '-');
      TwoDigitsFree(e, '-');
      TailCancel('-', Signed(y) + "-" + TwoDigits(m), TwoDigits(d), Signed(z) + "-" + TwoDigits(n), TwoDigits(e));
      TwoDigitsInjective(d, e);
      YearAndPartInjective(y, m, z, n);
    case (MonthOf(y, m), DayOf(z, n, e)) => MonthIsNotDay(y, m, z, n, e);
    case (DayOf(z, n, e), MonthOf(y, m)) => MonthIsNotDay(y, m, z, n, e);
    case _ =>
  }

  lemma MonthIsNotDay(y: int, m: nat, z: int, n: nat, e: nat)
    requires m < 100 && n < 100 && e < 100
    ensures Signed(y) + "-" + TwoDigits(m) != Signed(z) + "-" + TwoDigits(n) + "-" + TwoDigits(e)
  {
    TwoDigitsFree(m, '-');
    TwoDigitsFree(e, '-');
    SignedIsNotDashed(y, z, TwoDigits(n));
    if Signed(y) + "-" + TwoDigits(m) == Signed(z) + "-" + TwoDigits(n) + "-" + TwoDigits(e) {
      TailCancel('-', Signed(y), TwoDigits(m), Signed(z) + "-" + TwoDigits(n), TwoDigits(e));
    }
  }

  // ---------------------------------------------------------------- budget and reservation keys

  /** The six families of budget counters. */
  datatype BudgetKey =
    | AccountSpend(tenant: nat, bucket: Bucket)
    | ProviderSpend(tenant: nat, provider: string, bucket: Bucket)
    | KeySpend(keyId: string, bucket: Bucket)
    | KeyProviderSpend(keyId: string, provider: string, bucket: Bucket)
    | AccountReserved(tenant: nat, bucket: Bucket)
    | KeyReserved(keyId: string, bucket: Bucket)

  /** Key ids are free of colons; providers may be anything. */
  predicate ValidBudgetKey(k: BudgetKey) {
    && ValidBucket(k.bucket)
    && (k.KeySpend? || k.KeyProviderSpend? || k.KeyReserved? ==> ':' !in k.keyId)
  }

  /** The first field after "budget": a tenant number or a family word. */
  function BudgetHead(k: BudgetKey): string {
    match k
    case AccountSpend(t, _) => Decimal(t)
    case ProviderSpend(t, _, _) => Decimal(t)
    case KeySpend(_, _) => "key"
    case KeyProviderSpend(_, _, _) => "key"
    case AccountReserved(_, _) => "reserved"
    case KeyReserved(_, _) => "reserved"
  }

  /** What stands between the head and the bucket label; an account counter has nothing there. */
  function BudgetRest(k: BudgetKey): string
    requires !k.AccountSpend?
  {
    match k
    case ProviderSpend(_, p, _) => p
    case KeySpend(id, _) => id
    case KeyProviderSpend(id, p, _) => id + ":" + p
    case AccountReserved(t, _) => Decimal(t)
    case KeyReserved(id, _) => "key" + ":" + id
  }

  function BudgetBody(k: BudgetKey): string {
    if k.AccountSpend? then BudgetHead(k) else BudgetHead(k) + ":" + BudgetRest(k)
  }

  function RenderBudgetKey(k: BudgetKey): string
    requires ValidBucket(k.bucket)
  {
    "budget" + ":" + (BudgetBody(k) + ":" + Label(k.bucket))
  }

  lemma HeadFree(k: BudgetKey)
    ensures ':' !in BudgetHead(k)
    ensures k.AccountSpend? || k.ProviderSpend? ==> IsDigit(BudgetHead(k)[0])
    ensures k.KeySpend? || k.KeyProviderSpend? ==> BudgetHead(k)[0] == 'k'
    ensures k.AccountReserved? || k.KeyReserved? ==> BudgetHead(k)[0] == 'r'
  {
    if k.AccountSpend? || k.ProviderSpend? { DecimalDigits(k.tenant); }
  }

  lemma RenderSplits(a: BudgetKey, b: BudgetKey)
    requires ValidBucket(a.bucket) && ValidBucket(b.bucket) && RenderBudgetKey(a) == RenderBudgetKey(b)
    ensures a.bucket == b.bucket && BudgetBody(a) == BudgetBody(b)
  {
    hide Label, BudgetBody;
    HeadCancel(':', "budget", BudgetBody(a) + ":" + Label(a.bucket), "budget", BudgetBody(b) + ":" + Label(b.bucket));
    LabelFree(a.bucket);
    LabelFree(b.bucket);
    TailCancel(':', BudgetBody(a), Label(a.bucket), BudgetBody(b), Label(b.bucket));
    LabelInjective(a.bucket, b.bucket);
  }

  /** The head is read off the body, and so is the rest. */
  lemma BodySplits(a: BudgetKey, b: BudgetKey)
    requires BudgetBody(a) == BudgetBody(b)
    ensures BudgetHead(a) == BudgetHead(b) && (a.AccountSpend? <==> b.AccountSpend?)
    ensures !a.AccountSpend? ==> BudgetRest(a) == BudgetRest(b)
  {
    hide BudgetHead, BudgetRest;
    HeadFree(a);
    HeadFree(b);
    assert a.AccountSpend? || BudgetBody(a)[|BudgetHead(a)|] == ':';
    assert b.AccountSpend? || BudgetBody(b)[|BudgetHead(b)|] == ':';
    if !a.AccountSpend? && !b.AccountSpend? {
      HeadCancel(':', BudgetHead(a), BudgetRest(a), BudgetHead(b), BudgetRest(b));
    }
  }

  /** A reservation's rest is a tenant number, or "key" and a key id. */
  lemma ReservedRests(t: nat, u: nat, id: string)
    ensures Decimal(t) != "key" + ":" + id
    ensures Decimal(t) == Decimal(u) ==> t == u
  {
    DecimalDigits(t);
    assert ("key" + ":" + id)[0] == 'k';
    if Decimal(t) == Decimal(u) { DecimalInjective(t, u); }
  }

  /** Within the key families: with colon-free ids the first colon ends the id. */
  lemma KeyRests(a: BudgetKey, b: BudgetKey)
    requires ValidBudgetKey(a) && ValidBudgetKey(b) && OfKey(a) && OfKey(b) && BudgetRest(a) == BudgetRest(b)
    ensures a.keyId == b.keyId && (a.KeySpend? <==> b.KeySpend?) && (a.KeyProviderSpend? ==> a.provider == b.provider)
  {
    assert a.KeyProviderSpend? ==> BudgetRest(a)[|a.keyId|] == ':';
    assert b.KeyProviderSpend? ==> BudgetRest(b)[|b.keyId|] == ':';
    if a.KeyProviderSpend? && b.KeyProviderSpend? {
      HeadCancel(':', a.keyId, a.provider, b.keyId, b.provider);
    }
  }

  predicate OfKey(k: BudgetKey) { k.KeySpend? || k.KeyProviderSpend? }

  /**
   * With colon-free key ids no two budget or reservation counters share a Redis key, whatever the
   * provider names contain.
   */
  lemma BudgetKeyInjective(a: BudgetKey, b: BudgetKey)
    requires ValidBudgetKey(a) && ValidBudgetKey(b)
    requires RenderBudgetKey(a) == RenderBudgetKey(b)
    ensures a == b
  {
    hide Label, Decimal, BudgetBody;
    RenderSplits(a, b);
    BodySplits(a, b);
    HeadFree(a);
    HeadFree(b);
    if OfKey(a) {
      KeyRests(a, b);
    } else if a.AccountReserved? || a.KeyReserved? {
      if a.AccountReserved? && b.AccountReserved? { ReservedRests(a.tenant, b.tenant, ""); }
      if a.AccountReserved? && b.KeyReserved? { ReservedRests(a.tenant, 0, b.keyId); }
      if a.KeyReserved? && b.AccountReserved? { ReservedRests(b.tenant, 0, a.keyId); }
      if a.KeyReserved? && b.KeyReserved? { assert BudgetRest(a)[4..] == a.keyId && BudgetRest(b)[4..] == b.keyId; }
    } else {
      DecimalInjective(a.tenant, b.tenant);
    }
  }

  /** A colon in a key id does make two counters share a key, whatever stands around it. */
  lemma ColonInKeyIdCollides(x: string, y: string, b: Bucket)
    requires ValidBucket(b)
    ensures RenderBudgetKey(KeySpend(x + ":" + y, b)) == RenderBudgetKey(KeyProviderSpend(x, y, b))
    ensures KeySpend(x + ":" + y, b) != KeyProviderSpend(x, y, b)
  {}

  /** A key's own counter is shared with no other counter if and only if its id has no colon. */
  lemma KeyUnsharedIffColonFree(id: string, b: Bucket)
    requires ValidBucket(b)
    ensures ':' !in id <==>
            forall k: BudgetKey :: ValidBucket(k.bucket) && RenderBudgetKey(k) == RenderBudgetKey(KeySpend(id, b)) ==> k == KeySpend(id, b)
  {
    hide Label, BudgetBody, RenderBudgetKey;
    if ':' in id {
      var i :| 0 <= i < |id| && id[i] == ':';
      assert id == id[..i] + ":" + id[i + 1..];
      ColonInKeyIdCollides(id[..i], id[i + 1..], b);
    } else {
      forall k: BudgetKey | ValidBucket(k.bucket) && RenderBudgetKey(k) == RenderBudgetKey(KeySpend(id, b)) ensures k == KeySpend(id, b) {
        RenderSplits(k, KeySpend(id, b));
        BodySplits(k, KeySpend(id, b));
        HeadFree(k);
      }
    }
  }

  // ---------------------------------------------------------------- rate-limit keys

  datatype RateKey = RateKey(tenant: nat, provider: string, model: string,
                             scopeType: string, scopeId: string, metric: string, window: int)

  /** Everything but the model name is free of colons. */
  predicate ValidRateKey(k: RateKey) {
    ':' !in k.provider && ':' !in k.scopeType && ':' !in k.scopeId && ':' !in k.metric
  }

  function Then(prefix: string, field: string): string {
    prefix + ":" + field
  }

  function RateKeyStem(k: RateKey): string {
    "rl" + ":" + (Decimal(k.tenant) + ":" + (k.provider + ":" + k.model))
  }

  function RenderRateKey(k: RateKey): string {
    Then(Then(Then(Then(RateKeyStem(k), k.scopeType), k.scopeId), k.metric), Signed(k.window))
  }

  lemma RateKeyStemInjective(a: RateKey, b: RateKey)
    requires ':' !in a.provider && ':' !in b.provider && RateKeyStem(a) == RateKeyStem(b)
    ensures a.tenant == b.tenant && a.provider == b.provider && a.model == b.model
  {
    HeadCancel(':', "rl", Decimal(a.tenant) + ":" + (a.provider + ":" + a.model),
               "rl", Decimal(b.tenant) + ":" + (b.provider + ":" + b.model));
    DecimalDigits(a.tenant);
    DecimalDigits(b.tenant);
    HeadCancel(':', Decimal(a.tenant), a.provider + ":" + a.model, Decimal(b.tenant), b.provider + ":" + b.model);
    DecimalInjective(a.tenant, b.tenant);
    HeadCancel(':', a.provider, a.model, b.provider, b.model);
  }

  /** No two rate counters share a key, even when model names contain colons. */
  lemma RateKeyInjective(a: RateKey, b: RateKey)
    requires ValidRateKey(a) && ValidRateKey(b) && RenderRateKey(a) == RenderRateKey(b)
    ensures a == b
  {
    hide RateKeyStem, Signed;
    SignedFree(a.window, ':');
    SignedFree(b.window, ':');
    var a1, b1 := Then(RateKeyStem(a), a.scopeType), Then(RateKeyStem(b), b.scopeType);
    var a2, b2 := Then(a1, a.scopeId), Then(b1, b.scopeId);
    var a3, b3 := Then(a2, a.metric), Then(b2, b.metric);
    TailCancel(':', a3, Signed(a.window), b3, Signed(b.window));
    TailCancel(':', a2, a.metric, b2, b.metric);
    TailCancel(':', a1, a.scopeId, b1, b.scopeId);
    TailCancel(':', RateKeyStem(a), a.scopeType, RateKeyStem(b), b.scopeType);
    SignedInjective(a.window, b.window);
    RateKeyStemInjective(a, b);
  }

  /**
   * A colon in a provider name, or in a scope id, does make two limits share a counter: what
   * follows it is read as the start of the next field.
   */
  lemma ColonInFieldCollides(t: nat, x: string, y: string, p: string, m: string, scope: string, id: string, metric: string, w: int)
    ensures RenderRateKey(RateKey(t, x + ":" + y, m, scope, id, metric, w)) == RenderRateKey(RateKey(t, x, y + ":" + m, scope, id, metric, w))
    ensures RenderRateKey(RateKey(t, p, m, scope, x + ":" + y, metric, w)) == RenderRateKey(RateKey(t, p, m + ":" + scope, x, y, metric, w))
  {
    assert (x + ":" + y) + ":" + m == x + ":" + (y + ":" + m);
    var a, b := RateKey(t, p, m, scope, x + ":" + y, metric, w), RateKey(t, p, m + ":" + scope, x, y, metric, w);
    assert Then(RateKeyStem(a), scope) == RateKeyStem(b);
    assert Then(Then(RateKeyStem(a), scope), x + ":" + y) == Then(Then(RateKeyStem(b), x), y);
  }

  // ---------------------------------------------------------------- the string-keyed store

  function Get<K>(m: map<K, int>, k: K): int {
    if k in m then m[k] else 0
  }

  /** INCRBY: a missing counter starts from zero. */
  function IncrBy<K>(m: map<K, int>, k: K, amount: int): map<K, int> {
    m[k := Get(m, k) + amount]
  }

  /** The Redis store holds, under its rendered key, the value of every rate counter. */
  ghost predicate Holds(store: map<string, int>, counters: map<RateKey, int>) {
    forall k :: ValidRateKey(k) ==> Get(store, RenderRateKey(k)) == Get(counters, k)
  }

  /** A command on one rendered key changes that counter and no other. */
  lemma IncrByOnRenderedKey(store: map<string, int>, counters: map<RateKey, int>, k: RateKey, amount: int)
    requires Holds(store, counters) && ValidRateKey(k)
    ensures Holds(IncrBy(store, RenderRateKey(k), amount), IncrBy(counters, k, amount))
  {
    hide RenderRateKey;
    forall j | ValidRateKey(j)
      ensures Get(IncrBy(store, RenderRateKey(k), amount), RenderRateKey(j)) == Get(IncrBy(counters, k, amount), j)
    {
      if RenderRateKey(j) == RenderRateKey(k) {
        RateKeyInjective(j, k);
      }
    }
  }

  /** The store has exactly the budget and reservation counters, under their rendered keys. */
  ghost predicate HoldsBudgets(store: map<string, int>, counters: map<BudgetKey, int>) {
    forall k :: ValidBudgetKey(k) ==>
      && (RenderBudgetKey(k) in store <==> k in counters)
      && Get(store, RenderBudgetKey(k)) == Get(counters, k)
  }

  lemma IncrByOnBudgetKey(store: map<string, int>, counters: map<BudgetKey, int>, k: BudgetKey, amount: int)
    requires HoldsBudgets(store, counters) && ValidBudgetKey(k)
    ensures HoldsBudgets(IncrBy(store, RenderBudgetKey(k), amount), IncrBy(counters, k, amount))
  {
    hide RenderBudgetKey;
    forall j | ValidBudgetKey(j)
      ensures RenderBudgetKey(j) in IncrBy(store, RenderBudgetKey(k), amount) <==> j in IncrBy(counters, k, amount)
      ensures Get(IncrBy(store, RenderBudgetKey(k), amount), RenderBudgetKey(j)) == Get(IncrBy(counters, k, amount), j)
    {
      if RenderBudgetKey(j) == RenderBudgetKey(k) {
        BudgetKeyInjective(j, k);
      }
    }
  }
}

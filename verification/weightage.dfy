/**
 * Weightage-proportional question allocation (src/lib/weightage.ts).
 *
 * Every topic gets a raw quota of its own; the difference between the
 * requested total and the sum of the raw quotas is then added, in one
 * step and without clamping, to the first topic of maximal weightage.
 * Weightages and totals are integers here (JavaScript numbers in the source).
 */
module Weightage {

  /** A topic as read from the store: `{ id, name, weightage }`. */
  datatype Topic = Topic(id: string, name: string, weightage: int)

  /** One row of the result. */
  datatype TopicDistribution = TopicDistribution(
    topicId: string,
    topicName: string,
    weightage: int,
    questionsToGenerate: int)

  /** `topics.reduce((sum, topic) => sum + topic.weightage, 0)`. */
  function TotalWeightage(topics: seq<Topic>): int {
    if topics == [] then 0 else TotalWeightage(topics[..|topics| - 1]) + topics[|topics| - 1].weightage
  }

  /** `getTotalQuestionsFromDistribution`: the left fold of `questionsToGenerate`. */
  function TotalQuestions(d: seq<TopicDistribution>): int {
    if d == [] then 0 else TotalQuestions(d[..|d| - 1]) + d[|d| - 1].questionsToGenerate
  }

  /** The total of a concatenation is the sum of the totals. */
  lemma {:induction false} TotalQuestionsAppend(a: seq<TopicDistribution>, b: seq<TopicDistribution>)
    ensures TotalQuestions(a + b) == TotalQuestions(a) + TotalQuestions(b)
  {
    if b != [] {
      assert (a + b)[..|a + b| - 1] == a + b[..|b| - 1];
      TotalQuestionsAppend(a, b[..|b| - 1]);
    } else {
      assert a + b == a;
    }
  }

  /** Changing one entry's quota by `delta` changes the total by `delta`. */
  lemma TotalQuestionsUpdate(d: seq<TopicDistribution>, k: nat, delta: int)
    requires k < |d|
    ensures TotalQuestions(d[k := d[k].(questionsToGenerate := d[k].questionsToGenerate + delta)])
            == TotalQuestions(d) + delta
  {
    var e := d[k].(questionsToGenerate := d[k].questionsToGenerate + delta);
    assert d == d[..k] + [d[k]] + d[k + 1..];
    assert d[k := e] == d[..k] + [e] + d[k + 1..];
    TotalQuestionsAppend(d[..k] + [d[k]], d[k + 1..]);
    TotalQuestionsAppend(d[..k], [d[k]]);
    TotalQuestionsAppend(d[..k] + [e], d[k + 1..]);
    TotalQuestionsAppend(d[..k], [e]);
    assert [e][..0] == [];
    assert [d[k]][..0] == [];
  }

  /** The mathematical floor of `n / d`, for either sign of `d`. */
  function FloorDiv(n: int, d: int): (q: int)
    requires d != 0
    ensures d > 0 ==> d * q <= n < d * (q + 1)
    ensures d < 0 ==> d * q >= n > d * (q + 1)
  {
    if d > 0 then n / d else (-n) / (-d)
  }

  /** `Math.round(n / d)`: the nearest integer, halves rounded up. */
  function RoundDiv(n: int, d: int): (r: int)
    requires d != 0
    ensures d > 0 ==> d * (2 * r - 1) <= 2 * n < d * (2 * r + 1)
    ensures d < 0 ==> d * (2 * r - 1) >= 2 * n > d * (2 * r + 1)
  {
    FloorDiv(2 * n + d, 2 * d)
  }

  /** `Math.ceil(n / k)` for a positive `k`. */
  function CeilDiv(n: int, k: int): (r: int)
    requires k > 0
    ensures k * (r - 1) < n <= k * r
  {
    -((-n) / k)
  }

  /** The quota the loop assigns to topic `i` before any reconciliation. */
  function RawQuota(topics: seq<Topic>, i: nat, total: int): (q: int)
    requires i < |topics|
    ensures topics[i].weightage == 0 ==> q == 1
    ensures topics[i].weightage != 0 && TotalWeightage(topics) == 0 ==>
              |topics| * (q - 1) < total <= |topics| * q
    ensures topics[i].weightage != 0 && TotalWeightage(topics) != 0 ==>
              var nearest := RoundDiv(topics[i].weightage * total, TotalWeightage(topics));
              if nearest == 0 && topics[i].weightage > 0 then q == 1 else q == nearest
  {
    var w, totalWeightage := topics[i].weightage, TotalWeightage(topics);
    if w == 0 then 1
    else if totalWeightage == 0 then CeilDiv(total, |topics|)
    else
      var nearest := RoundDiv(w * total, totalWeightage);
      if nearest == 0 && w > 0 then 1 else nearest
  }

  /** A total weightage of non-negative weightages is at least each of them. */
  lemma {:induction false} TotalWeightageBounds(topics: seq<Topic>, i: nat)
    requires i < |topics|
    requires forall j :: 0 <= j < |topics| ==> topics[j].weightage >= 0
    ensures topics[i].weightage <= TotalWeightage(topics)
  {
    var last := |topics| - 1;
    var init := topics[..last];
    if i < last {
      TotalWeightageBounds(init, i);
    } else if last > 0 {
      TotalWeightageNonNegative(init);
    }
  }

  lemma {:induction false} TotalWeightageNonNegative(topics: seq<Topic>)
    requires forall j :: 0 <= j < |topics| ==> topics[j].weightage >= 0
    ensures TotalWeightage(topics) >= 0
  {
    if topics != [] {
      TotalWeightageNonNegative(topics[..|topics| - 1]);
    }
  }

  /** With non-negative weightages and total, every raw quota is at least one. */
  lemma RawQuotaAtLeastOne(topics: seq<Topic>, i: nat, total: int)
    requires i < |topics| && total >= 0
    requires forall j :: 0 <= j < |topics| ==> topics[j].weightage >= 0
    ensures RawQuota(topics, i, total) >= 1
  {
    var w, totalWeightage := topics[i].weightage, TotalWeightage(topics);
    if w != 0 {
      TotalWeightageBounds(topics, i);
      var nearest := RoundDiv(w * total, totalWeightage);
      assert w * total >= 0;
      assert totalWeightage * (2 * nearest + 1) > 0;
    }
  }

  /** `k` is the first position holding the maximal weightage. */
  predicate IsFirstHeaviest(ws: seq<int>, k: int) {
    && 0 <= k < |ws|
    && (forall j :: 0 <= j < |ws| ==> ws[j] <= ws[k])
    && (forall j :: 0 <= j < k ==> ws[j] < ws[k])
  }

  /** The first position of maximal weightage. */
  function HeaviestIndex(ws: seq<int>): (k: nat)
    requires |ws| > 0
    ensures IsFirstHeaviest(ws, k)
  {
    if |ws| == 1 then 0
    else
      var k := HeaviestIndex(ws[..|ws| - 1]);
      if ws[|ws| - 1] > ws[k] then |ws| - 1 else k
  }

  /** At most one position is the first of maximal weightage. */
  lemma FirstHeaviestUnique(ws: seq<int>, k: int, k': int)
    requires IsFirstHeaviest(ws, k) && IsFirstHeaviest(ws, k')
    ensures k == k'
  {
    assert ws[k] == ws[k'];
  }

  /** `0, 1, …, n - 1`. */
  function Positions(n: nat): (r: seq<nat>)
    ensures |r| == n && forall i :: 0 <= i < n ==> r[i] == i
  {
    seq(n, i requires 0 <= i < n => i)
  }

  /**
   * `order` is how a stable sort with comparator `(a, b) => b.weightage - a.weightage`
   * arranges the positions of `ws`: a permutation, by descending weightage, keeping
   * input order among equal weightages.
   */
  ghost predicate IsStableDescendingOrder(ws: seq<int>, order: seq<nat>) {
    && multiset(order) == multiset(Positions(|ws|))
    && (forall i, j :: 0 <= i < j < |order| && order[i] < |ws| && order[j] < |ws| ==>
          ws[order[i]] > ws[order[j]] || (ws[order[i]] == ws[order[j]] && order[i] < order[j]))
  }

  /** The head of the stably sorted copy is the first topic of maximal weightage. */
  lemma StableSortHeadIsHeaviest(ws: seq<int>, order: seq<nat>)
    requires |ws| > 0 && IsStableDescendingOrder(ws, order)
    ensures |order| == |ws| && order[0] == HeaviestIndex(ws)
  {
    var n := |ws|;
    assert |order| == |multiset(order)| == |multiset(Positions(n))| == n;
    forall i | 0 <= i < n ensures order[i] < n {
      assert order[i] in multiset(order);
      assert order[i] in multiset(Positions(n));
    }
    var h := HeaviestIndex(ws);
    assert h == Positions(n)[h];
    assert h in multiset(Positions(n));
    assert h in multiset(order);
    var i :| 0 <= i < n && order[i] == h;
  }

  /** A result row: the topic's fields and its quota. */
  function Entry(topic: Topic, quota: int): TopicDistribution {
    TopicDistribution(topic.id, topic.name, topic.weightage, quota)
  }

  /** The rows the loop pushes, before reconciliation. */
  function RawDistribution(topics: seq<Topic>, total: int): seq<TopicDistribution> {
    seq(|topics|, i requires 0 <= i < |topics| => Entry(topics[i], RawQuota(topics, i, total)))
  }

  /** `assignedQuestions`: the sum of the raw quotas. */
  function AssignedQuestions(topics: seq<Topic>, total: int): int {
    TotalQuestions(RawDistribution(topics, total))
  }

  function Weightages(d: seq<TopicDistribution>): seq<int> {
    seq(|d|, i requires 0 <= i < |d| => d[i].weightage)
  }

  function TopicWeightages(topics: seq<Topic>): seq<int> {
    seq(|topics|, i requires 0 <= i < |topics| => topics[i].weightage)
  }

  /** Adds `difference` to the first row of maximal weightage, when there is something to add. */
  function Reconcile(raw: seq<TopicDistribution>, difference: int): seq<TopicDistribution> {
    if difference != 0 && |raw| > 0 then
      var k := HeaviestIndex(Weightages(raw));
      raw[k := raw[k].(questionsToGenerate := raw[k].questionsToGenerate + difference)]
    else raw
  }

  /** What `calculateQuestionDistribution(topics, total)` returns. */
  function Distribution(topics: seq<Topic>, total: int): seq<TopicDistribution> {
    var raw := RawDistribution(topics, total);
    Reconcile(raw, total - TotalQuestions(raw))
  }

  /** One row per topic, in input order, with the topic's fields copied. */
  lemma DistributionKeepsTopics(topics: seq<Topic>, total: int)
    ensures var d := Distribution(topics, total);
      && |d| == |topics|
      && forall i :: 0 <= i < |topics| ==>
           && d[i].topicId == topics[i].id
           && d[i].topicName == topics[i].name
           && d[i].weightage == topics[i].weightage
  {
  }

  /** For a non-empty topic list the quotas add up to the requested total exactly. */
  lemma DistributionSumsToTotal(topics: seq<Topic>, total: int)
    requires |topics| > 0
    ensures TotalQuestions(Distribution(topics, total)) == total
  {
    var raw := RawDistribution(topics, total);
    var difference := total - TotalQuestions(raw);
    if difference != 0 {
      TotalQuestionsUpdate(raw, HeaviestIndex(Weightages(raw)), difference);
    }
  }

  /**
   * Reconciliation changes one row only, the first topic of maximal weightage,
   * by the whole difference (which may make it negative); every other row keeps
   * its raw quota.
   */
  lemma DistributionAdjustsOnlyHeaviest(topics: seq<Topic>, total: int, k: nat)
    requires IsFirstHeaviest(TopicWeightages(topics), k)
    ensures var d := Distribution(topics, total);
      && |d| == |topics|
      && (forall i :: 0 <= i < |topics| && i != k ==>
            d[i].questionsToGenerate == RawQuota(topics, i, total))
      && d[k].questionsToGenerate
         == RawQuota(topics, k, total) + (total - AssignedQuestions(topics, total))
  {
    var raw := RawDistribution(topics, total);
    assert Weightages(raw) == TopicWeightages(topics);
    FirstHeaviestUnique(TopicWeightages(topics), k, HeaviestIndex(Weightages(raw)));
  }

  /**
   * With non-negative weightages and total, every topic other than the first
   * heaviest gets at least one question.
   */
  lemma DistributionOthersAtLeastOne(topics: seq<Topic>, total: int, k: nat)
    requires total >= 0
    requires forall j :: 0 <= j < |topics| ==> topics[j].weightage >= 0
    requires IsFirstHeaviest(TopicWeightages(topics), k)
    ensures var d := Distribution(topics, total);
      forall i :: 0 <= i < |d| && i != k ==> d[i].questionsToGenerate >= 1
  {
    DistributionAdjustsOnlyHeaviest(topics, total, k);
    forall i | 0 <= i < |topics| && i != k ensures RawQuota(topics, i, total) >= 1 {
      RawQuotaAtLeastOne(topics, i, total);
    }
  }

  /** An empty topic list gives an empty distribution. */
  lemma DistributionOfNoTopics(total: int)
    ensures Distribution([], total) == []
  {
  }

  function Quotas(d: seq<TopicDistribution>): seq<int> {
    seq(|d|, i requires 0 <= i < |d| => d[i].questionsToGenerate)
  }

  lemma TotalQuestionsOfTwo(d: seq<TopicDistribution>)
    requires |d| == 2
    ensures TotalQuestions(d) == d[0].questionsToGenerate + d[1].questionsToGenerate
  {
    assert d[..1][..0] == [];
    assert TotalQuestions(d[..1]) == d[0].questionsToGenerate;
  }

  lemma TotalQuestionsOfThree(d: seq<TopicDistribution>)
    requires |d| == 3
    ensures TotalQuestions(d) == d[0].questionsToGenerate + d[1].questionsToGenerate + d[2].questionsToGenerate
  {
    TotalQuestionsOfTwo(d[..2]);
  }

  /** Weightages 50, 30, 20 and 10 questions give 5, 3, 2. */
  lemma ExampleProportional()
    ensures Quotas(Distribution([Topic("a", "A", 50), Topic("b", "B", 30), Topic("c", "C", 20)], 10))
            == [5, 3, 2]
  {
    var topics := [Topic("a", "A", 50), Topic("b", "B", 30), Topic("c", "C", 20)];
    assert TotalWeightage(topics) == 100 by {
      assert topics[..2][..1] == topics[..1];
      assert topics[..1][..0] == [];
      assert TotalWeightage(topics[..1]) == 50;
      assert TotalWeightage(topics[..2]) == 80;
    }
    var raw := RawDistribution(topics, 10);
    assert Quotas(raw) == [5, 3, 2];
    TotalQuestionsOfThree(raw);
  }

  /** Two zero-weightage topics and 5 questions give 4, 1: the remainder goes to the first. */
  lemma ExampleZeroWeightages()
    ensures Quotas(Distribution([Topic("a", "A", 0), Topic("b", "B", 0)], 5)) == [4, 1]
  {
    var topics := [Topic("a", "A", 0), Topic("b", "B", 0)];
    var raw := RawDistribution(topics, 5);
    assert Quotas(raw) == [1, 1];
    TotalQuestionsOfTwo(raw);
    assert HeaviestIndex(Weightages(raw)) == 0;
  }

  /** No clamping: three zero-weightage topics and 1 question give -1, 1, 1. */
  lemma ExampleNegativeQuota()
    ensures Quotas(Distribution([Topic("a", "A", 0), Topic("b", "B", 0), Topic("c", "C", 0)], 1))
            == [-1, 1, 1]
  {
    var topics := [Topic("a", "A", 0), Topic("b", "B", 0), Topic("c", "C", 0)];
    var raw := RawDistribution(topics, 1);
    assert Quotas(raw) == [1, 1, 1];
    TotalQuestionsOfThree(raw);
    assert HeaviestIndex(Weightages(raw)) == 0 by {
      assert IsFirstHeaviest(Weightages(raw), 0);
      FirstHeaviestUnique(Weightages(raw), 0, HeaviestIndex(Weightages(raw)));
    }
  }

  /** One step of the loop: pushing topic `i`'s raw quota extends the raw prefix and its total. */
  lemma RawDistributionStep(topics: seq<Topic>, total: int, i: nat, q: int, prefix: seq<TopicDistribution>)
    requires i < |topics| && q == RawQuota(topics, i, total)
    requires prefix == RawDistribution(topics, total)[..i]
    ensures prefix + [Entry(topics[i], q)] == RawDistribution(topics, total)[..i + 1]
    ensures TotalQuestions(prefix + [Entry(topics[i], q)]) == TotalQuestions(prefix) + q
  {
    var raw := RawDistribution(topics, total);
    assert raw[..i + 1] == raw[..i] + [raw[i]];
    assert (prefix + [Entry(topics[i], q)])[..|prefix|] == prefix;
  }

  /**
   * `calculateQuestionDistribution`: one pass that pushes each topic's raw
   * quota and accumulates their sum, then adds the difference to the head of
   * a copy sorted by descending weightage. The copy shares its row objects
   * with `distribution`, so the change lands on that row of the result.
   */
  method CalculateQuestionDistribution(topics: seq<Topic>, totalQuestions: int)
    returns (distribution: seq<TopicDistribution>)
    ensures distribution == Distribution(topics, totalQuestions)
    ensures |topics| > 0 ==> TotalQuestions(distribution) == totalQuestions
  {
    var totalWeightage := TotalWeightage(topics);
    distribution := [];
    var assignedQuestions := 0;
    ghost var raw := RawDistribution(topics, totalQuestions);
    for i := 0 to |topics|
      invariant distribution == raw[..i]
      invariant assignedQuestions == TotalQuestions(distribution)
    {
      var topic := topics[i];
      var questionsForTopic: int;
      if topic.weightage == 0 {
        questionsForTopic := 1;
      } else if totalWeightage == 0 {
        questionsForTopic := CeilDiv(totalQuestions, |topics|);
      } else {
        questionsForTopic := RoundDiv(topic.weightage * totalQuestions, totalWeightage);
        if questionsForTopic == 0 && topic.weightage > 0 {
          questionsForTopic := 1;
        }
      }
      RawDistributionStep(topics, totalQuestions, i, questionsForTopic, distribution);
      distribution := distribution + [Entry(topic, questionsForTopic)];
      assignedQuestions := assignedQuestions + questionsForTopic;
    }
    assert raw[..|topics|] == raw;
    var difference := totalQuestions - assignedQuestions;
    if difference != 0 && |distribution| > 0 {
      var top := HeaviestIndex(Weightages(distribution));
      distribution := distribution[top := distribution[top].(
        questionsToGenerate := distribution[top].questionsToGenerate + difference)];
    }
    if |topics| > 0 {
      DistributionSumsToTotal(topics, totalQuestions);
    }
  }
}

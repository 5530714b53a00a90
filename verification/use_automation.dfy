/** The in-memory keyword and configuration store of the `useAutomation` hook:
    a list of keywords, one configuration record, the statistics derived from
    the list, and the five operations that replace the list or the record. */
module UseAutomation {
  import opened Wrappers
  import opened AutomationTypes

  /** The configuration the hook starts with: no credentials, a five second
      delay, and both replying to comments and sending DMs switched on. */
  function DefaultConfig(): (c: AutomationConfig)
    ensures c.accessToken == "" && c.instagramId == "" && c.baseUrl == "" && c.apiKey == ""
    ensures c.delaySeconds == 5 && c.replyToComment && c.sendDM
  {
    AutomationConfig("", "", "", "", 5, true, true)
  }

  /** The two keywords the hook starts with, both created at `now`. */
  function DefaultKeywords(now: Timestamp): seq<Keyword> {
    [ Keyword("1", "quero", true, "https://pay.kiwify.com.br/mIqt4HB",
              "Opa, vi que você teve interesse! Clique no botão abaixo:",
              "Comprar Agora", now, 127),
      Keyword("2", "link", true, "https://wa.me/556191592205",
              "Aqui está o link que você pediu!",
              "Acessar WhatsApp", now, 84) ]
  }

  /** No entry of `ks` carries `id` (what `crypto.randomUUID` is trusted to give). */
  predicate FreshId(ks: seq<Keyword>, id: string) {
    forall i :: 0 <= i < |ks| ==> ks[i].id != id
  }

  /** Every entry has its own id. */
  predicate IdsDistinct(ks: seq<Keyword>) {
    forall i, j :: 0 <= i < j < |ks| ==> ks[i].id != ks[j].id
  }

  // ---------------------------------------------------------------------------
  // Statistics

  /** The sum of the trigger counts of `ks`, read from the front. */
  function SumTriggers(ks: seq<Keyword>): int {
    if ks == [] then 0 else ks[0].triggersCount + SumTriggers(ks[1..])
  }

  /** `keywords.reduce((acc, k) => acc + k.triggersCount, acc)`: a left fold. */
  function FoldTriggers(ks: seq<Keyword>, acc: int): int {
    if ks == [] then acc else FoldTriggers(ks[1..], acc + ks[0].triggersCount)
  }

  /** `keywords.filter((k) => k.enabled)`: the enabled entries, in order. */
  function EnabledOnes(ks: seq<Keyword>): (r: seq<Keyword>)
    ensures |r| <= |ks|
    ensures forall k :: k in r <==> k in ks && k.enabled
  {
    if ks == [] then []
    else
      assert ks == [ks[0]] + ks[1..];
      (if ks[0].enabled then [ks[0]] else []) + EnabledOnes(ks[1..])
  }

  /** The `stats` projection. The reduce over trigger counts is the sum of the
      counts, messages sent is the same figure, the active count is the number
      of enabled entries and so never exceeds the list, and the last activity
      is the clock reading at the time the stats are computed. */
  function Stats(ks: seq<Keyword>, now: Timestamp): (r: DashboardStats)
    ensures r.totalTriggers == SumTriggers(ks)
    ensures r.messagesSent == r.totalTriggers
    ensures r.activeKeywords == |EnabledOnes(ks)| <= |ks|
    ensures r.lastActivity == Some(now)
  {
    FoldIsSum(ks, 0);
    var total := FoldTriggers(ks, 0);
    DashboardStats(total, |EnabledOnes(ks)|, FoldTriggers(ks, 0), Some(now))
  }

  /** The left fold `reduce` computes is the sum of the trigger counts. */
  lemma {:induction false} FoldIsSum(ks: seq<Keyword>, acc: int)
    ensures FoldTriggers(ks, acc) == acc + SumTriggers(ks)
  {
    if ks != [] {
      FoldIsSum(ks[1..], acc + ks[0].triggersCount);
    }
  }

  lemma {:induction false} SumAppend(a: seq<Keyword>, b: seq<Keyword>)
    ensures SumTriggers(a + b) == SumTriggers(a) + SumTriggers(b)
  {
    if a == [] {
      assert a + b == b;
    } else {
      assert (a + b)[1..] == a[1..] + b;
      SumAppend(a[1..], b);
    }
  }

  lemma {:induction false} EnabledOnesAppend(a: seq<Keyword>, b: seq<Keyword>)
    ensures EnabledOnes(a + b) == EnabledOnes(a) + EnabledOnes(b)
  {
    if a == [] {
      assert a + b == b;
    } else {
      assert (a + b)[1..] == a[1..] + b;
      EnabledOnesAppend(a[1..], b);
    }
  }

  // ---------------------------------------------------------------------------
  // Keyword operations

  /** `prev.map((k) => (k.id === id ? f(k) : k))`. */
  function MapMatching(ks: seq<Keyword>, id: string, f: Keyword -> Keyword): (r: seq<Keyword>)
    ensures |r| == |ks|
    ensures forall i :: 0 <= i < |ks| ==> r[i] == if ks[i].id == id then f(ks[i]) else ks[i]
  {
    if ks == [] then []
    else [if ks[0].id == id then f(ks[0]) else ks[0]] + MapMatching(ks[1..], id, f)
  }

  /** `addKeyword(keyword)`: appends a keyword made from the draft, with a fresh
      id, the creation time `now` and no triggers yet. */
  function AddKeyword(ks: seq<Keyword>, draft: KeywordDraft, id: string, now: Timestamp): (r: seq<Keyword>)
    requires FreshId(ks, id)
    ensures |r| == |ks| + 1 && r[..|ks|] == ks
    ensures r[|ks|] == Keyword(id, draft.word, draft.enabled, draft.link, draft.message,
                               draft.buttonText, now, 0)
    ensures FreshId(ks, r[|ks|].id)
  {
    ks + [Keyword(id, draft.word, draft.enabled, draft.link, draft.message, draft.buttonText, now, 0)]
  }

  /** `{ ...k, ...updates }`: every field present in the patch, the others from `k`. */
  function Merge(k: Keyword, p: KeywordPatch): Keyword {
    Keyword(p.id.GetOr(k.id), p.word.GetOr(k.word), p.enabled.GetOr(k.enabled),
            p.link.GetOr(k.link), p.message.GetOr(k.message), p.buttonText.GetOr(k.buttonText),
            p.createdAt.GetOr(k.createdAt), p.triggersCount.GetOr(k.triggersCount))
  }

  /** `updateKeyword(id, updates)`: same length and order; entries with another
      id are untouched; each entry with this id takes every field the patch
      holds and keeps every field it does not. */
  function UpdateKeyword(ks: seq<Keyword>, id: string, p: KeywordPatch): (r: seq<Keyword>)
    ensures |r| == |ks|
    ensures forall i :: 0 <= i < |ks| && ks[i].id != id ==> r[i] == ks[i]
    ensures forall i :: 0 <= i < |ks| && ks[i].id == id ==>
      && (p.id.Some? ==> r[i].id == p.id.value) && (p.id.None? ==> r[i].id == id)
      && (p.word.Some? ==> r[i].word == p.word.value) && (p.word.None? ==> r[i].word == ks[i].word)
      && (p.enabled.Some? ==> r[i].enabled == p.enabled.value) && (p.enabled.None? ==> r[i].enabled == ks[i].enabled)
      && (p.link.Some? ==> r[i].link == p.link.value) && (p.link.None? ==> r[i].link == ks[i].link)
      && (p.message.Some? ==> r[i].message == p.message.value) && (p.message.None? ==> r[i].message == ks[i].message)
      && (p.buttonText.Some? ==> r[i].buttonText == p.buttonText.value) && (p.buttonText.None? ==> r[i].buttonText == ks[i].buttonText)
      && (p.createdAt.Some? ==> r[i].createdAt == p.createdAt.value) && (p.createdAt.None? ==> r[i].createdAt == ks[i].createdAt)
      && (p.triggersCount.Some? ==> r[i].triggersCount == p.triggersCount.value) && (p.triggersCount.None? ==> r[i].triggersCount == ks[i].triggersCount)
  {
    MapMatching(ks, id, k => Merge(k, p))
  }

  /** `deleteKeyword(id)`: keeps exactly the entries with another id; with no
      entry carrying `id` the list is returned as it was. */
  function DeleteKeyword(ks: seq<Keyword>, id: string): (r: seq<Keyword>)
    ensures |r| <= |ks|
    ensures forall k :: k in r <==> k in ks && k.id != id
    ensures FreshId(ks, id) ==> r == ks
  {
    if ks == [] then []
    else
      assert ks == [ks[0]] + ks[1..];
      (if ks[0].id == id then [] else [ks[0]]) + DeleteKeyword(ks[1..], id)
  }

  function Flip(k: Keyword): Keyword {
    k.(enabled := !k.enabled)
  }

  /** `toggleKeyword(id)`: flips `enabled` on the entries with this id and
      changes nothing else, neither another field nor another entry. */
  function ToggleKeyword(ks: seq<Keyword>, id: string): (r: seq<Keyword>)
    ensures |r| == |ks|
    ensures forall i :: 0 <= i < |ks| && ks[i].id != id ==> r[i] == ks[i]
    ensures forall i :: 0 <= i < |ks| && ks[i].id == id ==>
      r[i].enabled == !ks[i].enabled && r[i] == ks[i].(enabled := r[i].enabled)
  {
    MapMatching(ks, id, Flip)
  }

  /** `{ ...prev, ...updates }` on the configuration. */
  function UpdateConfig(c: AutomationConfig, p: ConfigPatch): (r: AutomationConfig)
    ensures p.accessToken.Some? ==> r.accessToken == p.accessToken.value
    ensures p.accessToken.None? ==> r.accessToken == c.accessToken
    ensures p.instagramId.Some? ==> r.instagramId == p.instagramId.value
    ensures p.instagramId.None? ==> r.instagramId == c.instagramId
    ensures p.baseUrl.Some? ==> r.baseUrl == p.baseUrl.value
    ensures p.baseUrl.None? ==> r.baseUrl == c.baseUrl
    ensures p.apiKey.Some? ==> r.apiKey == p.apiKey.value
    ensures p.apiKey.None? ==> r.apiKey == c.apiKey
    ensures p.delaySeconds.Some? ==> r.delaySeconds == p.delaySeconds.value
    ensures p.delaySeconds.None? ==> r.delaySeconds == c.delaySeconds
    ensures p.replyToComment.Some? ==> r.replyToComment == p.replyToComment.value
    ensures p.replyToComment.None? ==> r.replyToComment == c.replyToComment
    ensures p.sendDM.Some? ==> r.sendDM == p.sendDM.value
    ensures p.sendDM.None? ==> r.sendDM == c.sendDM
  {
    AutomationConfig(p.accessToken.GetOr(c.accessToken), p.instagramId.GetOr(c.instagramId),
                     p.baseUrl.GetOr(c.baseUrl), p.apiKey.GetOr(c.apiKey),
                     p.delaySeconds.GetOr(c.delaySeconds), p.replyToComment.GetOr(c.replyToComment),
                     p.sendDM.GetOr(c.sendDM))
  }

  // ---------------------------------------------------------------------------
  // Properties of the keyword operations

  /** Adding appends one entry that starts with no triggers, so the trigger
      total is unchanged and the active count grows by one exactly when the
      new keyword is enabled. */
  lemma AddKeepsTotal(ks: seq<Keyword>, draft: KeywordDraft, id: string, now: Timestamp)
    requires FreshId(ks, id)
    ensures SumTriggers(AddKeyword(ks, draft, id, now)) == SumTriggers(ks)
    ensures |EnabledOnes(AddKeyword(ks, draft, id, now))|
         == |EnabledOnes(ks)| + (if draft.enabled then 1 else 0)
  {
    var k := AddKeyword(ks, draft, id, now)[|ks|];
    SumAppend(ks, [k]);
    EnabledOnesAppend(ks, [k]);
    assert [k][1..] == [];
  }

  /** A fresh id keeps the ids distinct. */
  lemma AddKeepsIdsDistinct(ks: seq<Keyword>, draft: KeywordDraft, id: string, now: Timestamp)
    requires FreshId(ks, id) && IdsDistinct(ks)
    ensures IdsDistinct(AddKeyword(ks, draft, id, now))
  {
  }

  /** Deleting the id just added gives back the list as it was before. */
  lemma DeleteUndoesAdd(ks: seq<Keyword>, draft: KeywordDraft, id: string, now: Timestamp)
    requires FreshId(ks, id)
    ensures DeleteKeyword(AddKeyword(ks, draft, id, now), id) == ks
  {
    var k := AddKeyword(ks, draft, id, now)[|ks|];
    DeleteAppend(ks, [k], id);
    assert DeleteKeyword([k], id) == [];
  }

  /** Deleting works piecewise, so it keeps the survivors in their order. */
  lemma {:induction false} DeleteAppend(a: seq<Keyword>, b: seq<Keyword>, id: string)
    ensures DeleteKeyword(a + b, id) == DeleteKeyword(a, id) + DeleteKeyword(b, id)
  {
    if a == [] {
      assert a + b == b;
    } else {
      assert (a + b)[1..] == a[1..] + b;
      DeleteAppend(a[1..], b, id);
    }
  }

  /** Deleting twice is deleting once. */
  lemma DeleteIdempotent(ks: seq<Keyword>, id: string)
    ensures DeleteKeyword(DeleteKeyword(ks, id), id) == DeleteKeyword(ks, id)
  {
    var r := DeleteKeyword(ks, id);
    assert FreshId(r, id) by {
      forall i | 0 <= i < |r| ensures r[i].id != id {
        assert r[i] in r;
      }
    }
  }

  /** Deleting never enables anything: the active count cannot grow. */
  lemma {:induction false} DeleteActive(ks: seq<Keyword>, id: string)
    ensures |EnabledOnes(DeleteKeyword(ks, id))| <= |EnabledOnes(ks)|
    ensures SumTriggers(DeleteKeyword(ks, id)) == SumTriggers(ks) - SumTriggers(Matching(ks, id))
  {
    if ks != [] {
      DeleteActive(ks[1..], id);
      var head := if ks[0].id == id then [] else [ks[0]];
      EnabledOnesAppend(head, DeleteKeyword(ks[1..], id));
      SumAppend(head, DeleteKeyword(ks[1..], id));
      var mhead := if ks[0].id == id then [ks[0]] else [];
      SumAppend(mhead, Matching(ks[1..], id));
    }
  }

  /** The entries carrying `id`, in order: what a delete removes. */
  function Matching(ks: seq<Keyword>, id: string): seq<Keyword> {
    if ks == [] then [] else (if ks[0].id == id then [ks[0]] else []) + Matching(ks[1..], id)
  }

  /** Toggling the same id twice restores the list. */
  lemma ToggleTwice(ks: seq<Keyword>, id: string)
    ensures ToggleKeyword(ToggleKeyword(ks, id), id) == ks
  {
  }

  /** Toggling leaves every trigger count, and so the total, unchanged. */
  lemma {:induction false} ToggleKeepsTotal(ks: seq<Keyword>, id: string)
    ensures SumTriggers(ToggleKeyword(ks, id)) == SumTriggers(ks)
  {
    if ks != [] {
      ToggleKeepsTotal(ks[1..], id);
      assert ToggleKeyword(ks, id)[1..] == ToggleKeyword(ks[1..], id);
    }
  }

  /** With distinct ids, toggling a present id changes the active count by
      exactly one, down if the entry was enabled and up if it was not. */
  lemma ToggleActive(ks: seq<Keyword>, i: nat)
    requires i < |ks| && IdsDistinct(ks)
    ensures |EnabledOnes(ToggleKeyword(ks, ks[i].id))|
         == |EnabledOnes(ks)| + (if ks[i].enabled then -1 else 1)
  {
    ToggleOne(ks, i);
    EnabledOnesReplace(ks, i, Flip(ks[i]));
  }

  /** With distinct ids, toggling a present id flips that one entry. */
  lemma ToggleOne(ks: seq<Keyword>, i: nat)
    requires i < |ks| && IdsDistinct(ks)
    ensures ToggleKeyword(ks, ks[i].id) == ks[i := Flip(ks[i])]
  {
    var r := ToggleKeyword(ks, ks[i].id);
    forall j | 0 <= j < |ks| ensures r[j] == ks[i := Flip(ks[i])][j] {
      if j != i {
        assert ks[j].id != ks[i].id;
      }
    }
  }

  /** Replacing one entry changes the active count by the difference of the
      two entries' flags. */
  lemma EnabledOnesReplace(ks: seq<Keyword>, i: nat, x: Keyword)
    requires i < |ks|
    ensures |EnabledOnes(ks[i := x])|
         == |EnabledOnes(ks)| - (if ks[i].enabled then 1 else 0) + (if x.enabled then 1 else 0)
  {
    var pre, post := ks[..i], ks[i + 1..];
    assert ks == pre + [ks[i]] + post;
    assert ks[i := x] == pre + [x] + post;
    EnabledOnesAppend(pre + [ks[i]], post);
    EnabledOnesAppend(pre, [ks[i]]);
    EnabledOnesAppend(pre + [x], post);
    EnabledOnesAppend(pre, [x]);
  }

  /** An update that does not set the trigger count keeps the total. */
  lemma {:induction false} UpdateKeepsTotal(ks: seq<Keyword>, id: string, p: KeywordPatch)
    requires p.triggersCount.None?
    ensures SumTriggers(UpdateKeyword(ks, id, p)) == SumTriggers(ks)
  {
    if ks != [] {
      UpdateKeepsTotal(ks[1..], id, p);
      assert UpdateKeyword(ks, id, p)[1..] == UpdateKeyword(ks[1..], id, p);
    }
  }

  /** An update that does not set `enabled` keeps the active count. */
  lemma {:induction false} UpdateKeepsActive(ks: seq<Keyword>, id: string, p: KeywordPatch)
    requires p.enabled.None?
    ensures |EnabledOnes(UpdateKeyword(ks, id, p))| == |EnabledOnes(ks)|
  {
    if ks != [] {
      var r := UpdateKeyword(ks, id, p);
      UpdateKeepsActive(ks[1..], id, p);
      assert r[1..] == UpdateKeyword(ks[1..], id, p);
      assert r == [r[0]] + r[1..];
      EnabledOnesAppend([r[0]], r[1..]);
      assert ks == [ks[0]] + ks[1..];
      EnabledOnesAppend([ks[0]], ks[1..]);
    }
  }

  /** An empty patch changes nothing. */
  lemma UpdateWithNoChanges(ks: seq<Keyword>, id: string)
    ensures UpdateKeyword(ks, id, NoKeywordChanges) == ks
  {
  }

  /** Applying the same update twice is applying it once. */
  lemma UpdateIdempotent(ks: seq<Keyword>, id: string, p: KeywordPatch)
    ensures UpdateKeyword(UpdateKeyword(ks, id, p), id, p) == UpdateKeyword(ks, id, p)
  {
  }

  /** Applying the same configuration update twice is applying it once. */
  lemma UpdateConfigIdempotent(c: AutomationConfig, p: ConfigPatch)
    ensures UpdateConfig(UpdateConfig(c, p), p) == UpdateConfig(c, p)
  {
  }

  /** An empty configuration update changes nothing. */
  lemma UpdateConfigWithNoChanges(c: AutomationConfig)
    ensures UpdateConfig(c, NoConfigChanges) == c
  {
  }

  /** An update holding every field replaces the whole record. */
  lemma UpdateConfigWhole(c: AutomationConfig, whole: AutomationConfig)
    ensures UpdateConfig(c, WholeConfig(whole)) == whole
  {
  }

  /** The hook's starting state: 211 triggers over two enabled keywords with
      distinct ids, and the default configuration. */
  lemma DefaultStats(now: Timestamp)
    ensures Stats(InitialStore(now).keywords, now).totalTriggers == 211
    ensures Stats(InitialStore(now).keywords, now).activeKeywords == 2
    ensures IdsDistinct(InitialStore(now).keywords)
    ensures InitialStore(now).config == DefaultConfig()
  {
    var ks := InitialStore(now).keywords;
    assert ks[1..][1..] == [];
    assert SumTriggers(ks[1..]) == 84 + SumTriggers(ks[1..][1..]);
    assert EnabledOnes(ks) == ks;
  }

  // ---------------------------------------------------------------------------
  // The hook's state and the operations as a sequence of actions

  /** The hook's state: the keyword list and the configuration record. */
  datatype Store = Store(keywords: seq<Keyword>, config: AutomationConfig)

  function InitialStore(now: Timestamp): Store {
    Store(DefaultKeywords(now), DefaultConfig())
  }

  /** One call of the hook's five operations. */
  datatype Action =
    | Add(draft: KeywordDraft, newId: string, now: Timestamp)
    | Update(id: string, patch: KeywordPatch)
    | Delete(id: string)
    | Toggle(id: string)
    | SetConfig(changes: ConfigPatch)

  /** An add needs a fresh id; every other call can always be made. */
  predicate CanStep(s: Store, a: Action) {
    a.Add? ==> FreshId(s.keywords, a.newId)
  }

  function Step(s: Store, a: Action): Store
    requires CanStep(s, a)
  {
    match a
    case Add(d, id, now) => s.(keywords := AddKeyword(s.keywords, d, id, now))
    case Update(id, p) => s.(keywords := UpdateKeyword(s.keywords, id, p))
    case Delete(id) => s.(keywords := DeleteKeyword(s.keywords, id))
    case Toggle(id) => s.(keywords := ToggleKeyword(s.keywords, id))
    case SetConfig(p) => s.(config := UpdateConfig(s.config, p))
  }

  predicate CanRun(s: Store, acts: seq<Action>)
    decreases |acts|
  {
    acts == [] || (CanStep(s, acts[0]) && CanRun(Step(s, acts[0]), acts[1..]))
  }

  function Run(s: Store, acts: seq<Action>): Store
    requires CanRun(s, acts)
    decreases |acts|
  {
    if acts == [] then s else Run(Step(s, acts[0]), acts[1..])
  }

  /** An update whose patch leaves the id alone. */
  predicate KeepsIds(a: Action) {
    a.Update? ==> a.patch.id.None?
  }

  lemma DistinctCons(k: Keyword, ks: seq<Keyword>)
    requires IdsDistinct(ks)
    requires forall j :: 0 <= j < |ks| ==> ks[j].id != k.id
    ensures IdsDistinct([k] + ks)
  {
    var r := [k] + ks;
    forall i, j | 0 <= i < j < |r| ensures r[i].id != r[j].id {
      assert r[j] == ks[j - 1];
      if i > 0 {
        assert r[i] == ks[i - 1];
      }
    }
  }

  /** Deleting keeps the ids distinct. */
  lemma {:induction false} DeleteKeepsIdsDistinct(ks: seq<Keyword>, id: string)
    requires IdsDistinct(ks)
    ensures IdsDistinct(DeleteKeyword(ks, id))
  {
    if ks != [] {
      var rest := DeleteKeyword(ks[1..], id);
      DeleteKeepsIdsDistinct(ks[1..], id);
      if ks[0].id != id {
        forall j | 0 <= j < |rest| ensures rest[j].id != ks[0].id {
          assert rest[j] in rest;
          var m :| 0 <= m < |ks[1..]| && ks[1..][m] == rest[j];
          assert ks[m + 1] == rest[j];
        }
        DistinctCons(ks[0], rest);
      } else {
        assert DeleteKeyword(ks, id) == [] + rest;
      }
    }
  }

  /** Every sequence of calls whose adds use fresh ids and whose updates leave
      ids alone keeps the keyword ids distinct. */
  lemma {:induction false} RunKeepsIdsDistinct(s: Store, acts: seq<Action>)
    requires IdsDistinct(s.keywords) && CanRun(s, acts)
    requires forall i :: 0 <= i < |acts| ==> KeepsIds(acts[i])
    ensures IdsDistinct(Run(s, acts).keywords)
    decreases |acts|
  {
    if acts != [] {
      var a := acts[0];
      var ks := s.keywords;
      match a {
        case Add(d, id, now) => AddKeepsIdsDistinct(ks, d, id, now);
        case Delete(id) => DeleteKeepsIdsDistinct(ks, id);
        case Update(id, p) =>
          assert KeepsIds(acts[0]);
          var r := UpdateKeyword(ks, id, p);
          assert forall i :: 0 <= i < |ks| ==> r[i].id == ks[i].id;
        case Toggle(id) =>
        case SetConfig(p) =>
      }
      assert forall i :: 0 <= i < |acts[1..]| ==> KeepsIds(acts[1..][i]) by {
        forall i | 0 <= i < |acts[1..]| ensures KeepsIds(acts[1..][i]) {
          assert acts[1..][i] == acts[i + 1];
        }
      }
      RunKeepsIdsDistinct(Step(s, a), acts[1..]);
    }
  }

  /** Starting from no keywords, adding an enabled keyword gives one entry, one
      active keyword and no triggers; toggling it then disables it and leaves
      no active keyword. */
  lemma AddThenToggleScenario(id: string, now: Timestamp)
    ensures var d := KeywordDraft("quero", true, "https://x", "m", "b");
            var s1 := Step(Store([], DefaultConfig()), Add(d, id, now));
            var s2 := Step(s1, Toggle(id));
            && |s1.keywords| == 1 && |s2.keywords| == 1
            && Stats(s1.keywords, now).activeKeywords == 1
            && Stats(s1.keywords, now).totalTriggers == 0
            && !s2.keywords[0].enabled
            && Stats(s2.keywords, now).activeKeywords == 0
  {
    var d := KeywordDraft("quero", true, "https://x", "m", "b");
    var s1 := Step(Store([], DefaultConfig()), Add(d, id, now));
    assert s1.keywords == [Keyword(id, "quero", true, "https://x", "m", "b", now, 0)];
    var s2 := Step(s1, Toggle(id));
    assert s2.keywords == [Keyword(id, "quero", false, "https://x", "m", "b", now, 0)];
    assert s1.keywords[1..] == [];
    assert SumTriggers(s1.keywords) == 0;
    assert EnabledOnes(s1.keywords) == s1.keywords;
    assert EnabledOnes(s2.keywords) == [];
  }
}

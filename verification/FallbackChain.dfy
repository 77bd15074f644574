/**
 Fallback chains: which model to try after one that failed.  Chains from the
 database take precedence over configured ones.  The chains sit in hash maps,
 which may be walked in any order.
 */
module FallbackChain {
  import opened Common

  type Model = string
  type Chains = map<Model, seq<Model>>

  /** A walk over a hash map: every key once, in any order. */
  ghost predicate Walks(order: seq<Model>, chains: Chains) {
    (forall k :: k in order <==> k in chains) &&
    (forall i, j :: 0 <= i < j < |order| ==> order[i] != order[j])
  }

  // ---------------------------------------------------------------- one chain

  /** The position of the first occurrence. */
  function Position(models: seq<Model>, m: Model): (p: Option<nat>)
    ensures p.None? <==> m !in models
    ensures p.Some? ==> p.value < |models| && models[p.value] == m && m !in models[..p.value]
  {
    if models == [] then None
    else if models[0] == m then Some(0)
    else
      match Position(models[1..], m)
      case None => None
      case Some(p) => Some(p + 1)
  }

  predicate Mentions(primary: Model, models: seq<Model>, m: Model) {
    m == primary || m in models
  }

  function At(models: seq<Model>, i: nat): Option<Model> {
    if i < |models| then Some(models[i]) else None
  }

  /** The entry after the model. */
  function Onward(models: seq<Model>, m: Model): Option<Model>
    requires m in models
  {
    At(models, Position(models, m).value + 1)
  }

  /** What one chain answers for a model it mentions. */
  function Answer(primary: Model, models: seq<Model>, m: Model): Option<Model>
    requires Mentions(primary, models, m)
  {
    if m == primary then At(models, 0) else Onward(models, m)
  }

  // ---------------------------------------------------------------- walking the maps

  /** The chains as they are displayed: those of the database replace configured ones. */
  function Merged(config: Chains, db: Chains): Chains {
    config + db
  }

  /** The first chain in walking order that mentions the model decides; the outer option says whether one does. */
  function InOrder(order: seq<Model>, chains: Chains, m: Model): Option<Option<Model>>
    requires forall k <- order :: k in chains
  {
    if order == [] then None
    else if Mentions(order[0], chains[order[0]], m) then Some(Answer(order[0], chains[order[0]], m))
    else InOrder(order[1..], chains, m)
  }

  /** The first chain in walking order whose entries hold the model. */
  function AmongEntries(order: seq<Model>, chains: Chains, m: Model): Option<Model>
    requires forall k <- order :: k in chains
  {
    if order == [] then None
    else if m in chains[order[0]] then Onward(chains[order[0]], m)
    else AmongEntries(order[1..], chains, m)
  }

  /** The next model for given walks over the two maps. */
  function Next(dbOrder: seq<Model>, db: Chains, configOrder: seq<Model>, config: Chains, m: Model): Option<Model>
    requires (forall k <- dbOrder :: k in db) && (forall k <- configOrder :: k in config)
  {
    if InOrder(dbOrder, db, m).Some? then InOrder(dbOrder, db, m).value
    else if m in config then At(config[m], 0)
    else AmongEntries(configOrder, config, m)
  }

  class FallbackChains {
    const config: Chains
    var db: Chains

    constructor (config: Chains)
      ensures this.config == config && db == map[]
    {
      this.config := config;
      db := map[];
    }

    method UpdateDbChains(chains: Chains)
      modifies this
      ensures db == chains
    {
      db := chains;
    }

    /** The orders are those in which the two maps happen to be walked. */
    method NextAfter(failed: Model, dbOrder: seq<Model>, configOrder: seq<Model>) returns (next: Option<Model>)
      requires Walks(dbOrder, db) && Walks(configOrder, config)
      ensures next == Next(dbOrder, db, configOrder, config, failed)
    {
      var i := 0;
      assert dbOrder[0..] == dbOrder;
      while i < |dbOrder|
        invariant i <= |dbOrder| && InOrder(dbOrder, db, failed) == InOrder(dbOrder[i..], db, failed)
      {
        var primary := dbOrder[i];
        var models := db[primary];
        assert dbOrder[i..][1..] == dbOrder[i + 1..];
        if primary == failed {
          return At(models, 0);
        }
        var p := Position(models, failed);
        if p.Some? {
          return At(models, p.value + 1);
        }
        i := i + 1;
      }
      if failed in config {
        return At(config[failed], 0);
      }
      i := 0;
      assert configOrder[0..] == configOrder;
      while i < |configOrder|
        invariant i <= |configOrder| && AmongEntries(configOrder, config, failed) == AmongEntries(configOrder[i..], config, failed)
      {
        var models := config[configOrder[i]];
        assert configOrder[i..][1..] == configOrder[i + 1..];
        var p := Position(models, failed);
        if p.Some? {
          return At(models, p.value + 1);
        }
        i := i + 1;
      }
      return None;
    }

    function AllChains(): Chains
      reads this
    {
      Merged(config, db)
    }
  }

  // ---------------------------------------------------------------- the walking order

  /** Two chains that mention the model and answer differently. */
  ghost predicate Disagree(chains: Chains, a: Model, b: Model, m: Model) {
    a in chains && b in chains && Mentions(a, chains[a], m) && Mentions(b, chains[b], m) &&
    Answer(a, chains[a], m) != Answer(b, chains[b], m)
  }

  ghost predicate ChainsIgnoreWalks(db: Chains, m: Model) {
    forall a, b: seq<Model> :: Walks(a, db) && Walks(b, db) ==> InOrder(a, db, m) == InOrder(b, db, m)
  }

  ghost predicate EntriesIgnoreWalks(config: Chains, m: Model) {
    forall a, b: seq<Model> :: Walks(a, config) && Walks(b, config) ==> AmongEntries(a, config, m) == AmongEntries(b, config, m)
  }

  lemma {:induction false} InOrderFrom(order: seq<Model>, chains: Chains, m: Model)
    requires forall k <- order :: k in chains
    ensures InOrder(order, chains, m).Some? <==> exists k <- order :: Mentions(k, chains[k], m)
    ensures InOrder(order, chains, m).Some? ==>
              exists k <- order :: Mentions(k, chains[k], m) && InOrder(order, chains, m) == Some(Answer(k, chains[k], m))
  {
    if order == [] {
    } else if Mentions(order[0], chains[order[0]], m) {
      assert order[0] in order;
    } else {
      InOrderFrom(order[1..], chains, m);
      assert forall k :: k in order <==> k == order[0] || k in order[1..];
    }
  }

  /** The first chain in walking order that concerns the model decides. */
  lemma {:induction false} FirstWalkedDecides(order: seq<Model>, chains: Chains, m: Model, i: nat)
    requires (forall k <- order :: k in chains) && i < |order|
    ensures Mentions(order[i], chains[order[i]], m) && (forall j :: 0 <= j < i ==> !Mentions(order[j], chains[order[j]], m)) ==>
              InOrder(order, chains, m) == Some(Answer(order[i], chains[order[i]], m))
    ensures m in chains[order[i]] && (forall j :: 0 <= j < i ==> m !in chains[order[j]]) ==>
              AmongEntries(order, chains, m) == Onward(chains[order[i]], m)
  {
    if i > 0 {
      FirstWalkedDecides(order[1..], chains, m, i - 1);
    }
  }

  /** Every set of keys can be walked, from any of them first. */
  lemma {:induction false} WalkFrom(keys: set<Model>, first: Model) returns (order: seq<Model>)
    requires first in keys
    ensures order != [] && order[0] == first
    ensures (forall k :: k in order <==> k in keys) && forall i, j :: 0 <= i < j < |order| ==> order[i] != order[j]
    decreases |keys|
  {
    var rest := keys - {first};
    if rest == {} {
      order := [first];
      assert forall k :: k in keys ==> k == first by {
        forall k | k in keys ensures k == first {
          assert k != first ==> k in rest;
        }
      }
    } else {
      assert (forall k :: k !in rest) ==> rest == {};
      var second :| second in rest;
      var tail := WalkFrom(rest, second);
      order := [first] + tail;
    }
  }

  /** The database's answer does not depend on the walking order exactly when no two chains disagree about the model. */
  lemma OrderMattersIffChainsDisagree(db: Chains, m: Model)
    ensures ChainsIgnoreWalks(db, m) <==> !exists x, y :: Disagree(db, x, y, m)
  {
    if x, y :| Disagree(db, x, y, m) {
      var a := WalkFrom(db.Keys, x);
      var b := WalkFrom(db.Keys, y);
      assert Walks(a, db) && Walks(b, db);
      assert InOrder(a, db, m) == Some(Answer(x, db[x], m)) && InOrder(b, db, m) == Some(Answer(y, db[y], m));
    } else {
      forall a, b: seq<Model> | Walks(a, db) && Walks(b, db) ensures InOrder(a, db, m) == InOrder(b, db, m) {
        InOrderFrom(a, db, m);
        InOrderFrom(b, db, m);
        if k :| k in db && Mentions(k, db[k], m) {
          assert k in a && k in b;
          var ka :| ka in a && Mentions(ka, db[ka], m) && InOrder(a, db, m) == Some(Answer(ka, db[ka], m));
          var kb :| kb in b && Mentions(kb, db[kb], m) && InOrder(b, db, m) == Some(Answer(kb, db[kb], m));
          assert !Disagree(db, ka, kb, m);
        }
      }
    }
  }

  /** Two chains that hold the model among their entries and go on differently. */
  ghost predicate EntriesDisagree(chains: Chains, a: Model, b: Model, m: Model) {
    a in chains && b in chains && m in chains[a] && m in chains[b] && Onward(chains[a], m) != Onward(chains[b], m)
  }

  lemma {:induction false} AmongEntriesFrom(order: seq<Model>, chains: Chains, m: Model)
    requires forall k <- order :: k in chains
    ensures (forall k <- order :: m !in chains[k]) ==> AmongEntries(order, chains, m) == None
    ensures (exists k <- order :: m in chains[k]) ==>
              exists k <- order :: m in chains[k] && AmongEntries(order, chains, m) == Onward(chains[k], m)
  {
    if order == [] {
    } else if m in chains[order[0]] {
      assert order[0] in order;
    } else {
      AmongEntriesFrom(order[1..], chains, m);
      assert forall k :: k in order <==> k == order[0] || k in order[1..];
    }
  }

  lemma EntriesMatterIffTheyDisagree(config: Chains, m: Model)
    ensures EntriesIgnoreWalks(config, m) <==> !exists x, y :: EntriesDisagree(config, x, y, m)
  {
    if x, y :| EntriesDisagree(config, x, y, m) {
      var a := WalkFrom(config.Keys, x);
      var b := WalkFrom(config.Keys, y);
      assert Walks(a, config) && Walks(b, config);
      assert AmongEntries(a, config, m) == Onward(config[x], m) && AmongEntries(b, config, m) == Onward(config[y], m);
    } else {
      forall a, b: seq<Model> | Walks(a, config) && Walks(b, config)
        ensures AmongEntries(a, config, m) == AmongEntries(b, config, m)
      {
        AmongEntriesFrom(a, config, m);
        AmongEntriesFrom(b, config, m);
        if k :| k in config && m in config[k] {
          assert k in a && k in b;
          var ka :| ka in a && m in config[ka] && AmongEntries(a, config, m) == Onward(config[ka], m);
          var kb :| kb in b && m in config[kb] && AmongEntries(b, config, m) == Onward(config[kb], m);
          assert !EntriesDisagree(config, ka, kb, m);
        }
      }
    }
  }

  lemma SomeWalk(chains: Chains) returns (order: seq<Model>)
    ensures Walks(order, chains)
  {
    if chains.Keys == {} {
      order := [];
    } else {
      assert (forall k :: k !in chains.Keys) ==> chains.Keys == {};
      var first :| first in chains.Keys;
      order := WalkFrom(chains.Keys, first);
    }
  }

  ghost predicate DbMentions(db: Chains, m: Model) {
    exists p <- db :: Mentions(p, db[p], m)
  }

  ghost predicate IgnoresWalks(db: Chains, config: Chains, m: Model) {
    forall a, b, c, d: seq<Model> :: Walks(a, db) && Walks(b, db) && Walks(c, config) && Walks(d, config) ==>
      Next(a, db, c, config, m) == Next(b, db, d, config, m)
  }

  lemma DecidesIffMentions(order: seq<Model>, db: Chains, m: Model)
    requires Walks(order, db)
    ensures InOrder(order, db, m).Some? <==> DbMentions(db, m)
  {
    InOrderFrom(order, db, m);
  }

  lemma NextNeedsChains(db: Chains, config: Chains, m: Model)
    requires IgnoresWalks(db, config, m)
    ensures ChainsIgnoreWalks(db, m)
  {
    var c := SomeWalk(config);
    forall a, b: seq<Model> | Walks(a, db) && Walks(b, db) ensures InOrder(a, db, m) == InOrder(b, db, m) {
      DecidesIffMentions(a, db, m);
      DecidesIffMentions(b, db, m);
      assert Next(a, db, c, config, m) == Next(b, db, c, config, m);
    }
  }

  lemma NextNeedsEntries(db: Chains, config: Chains, m: Model)
    requires IgnoresWalks(db, config, m) && !DbMentions(db, m) && m !in config
    ensures EntriesIgnoreWalks(config, m)
  {
    var a := SomeWalk(db);
    DecidesIffMentions(a, db, m);
    forall c, d: seq<Model> | Walks(c, config) && Walks(d, config) ensures AmongEntries(c, config, m) == AmongEntries(d, config, m) {
      assert Next(a, db, c, config, m) == Next(a, db, d, config, m);
    }
  }

  lemma NextNeedsNoMore(db: Chains, config: Chains, m: Model)
    requires ChainsIgnoreWalks(db, m)
    requires DbMentions(db, m) || m in config || EntriesIgnoreWalks(config, m)
    ensures IgnoresWalks(db, config, m)
  {
    forall a, b, c, d: seq<Model> | Walks(a, db) && Walks(b, db) && Walks(c, config) && Walks(d, config)
      ensures Next(a, db, c, config, m) == Next(b, db, d, config, m)
    {
      DecidesIffMentions(a, db, m);
      assert InOrder(a, db, m) == InOrder(b, db, m);
    }
  }

  /**
   The answer does not depend on how the maps are walked exactly when no two
   database chains disagree about the model and, where neither a database chain
   nor a configured primary settles it, no two configured chains do.
   */
  lemma NextIgnoresWalksIff(db: Chains, config: Chains, m: Model)
    ensures IgnoresWalks(db, config, m) <==>
            (!exists x, y :: Disagree(db, x, y, m)) &&
            (DbMentions(db, m) || m in config || !exists x, y :: EntriesDisagree(config, x, y, m))
  {
    OrderMattersIffChainsDisagree(db, m);
    EntriesMatterIffTheyDisagree(config, m);
    if IgnoresWalks(db, config, m) {
      NextNeedsChains(db, config, m);
      if !DbMentions(db, m) && m !in config {
        NextNeedsEntries(db, config, m);
      }
    }
    if ChainsIgnoreWalks(db, m) && (DbMentions(db, m) || m in config || EntriesIgnoreWalks(config, m)) {
      NextNeedsNoMore(db, config, m);
    }
  }

  // ---------------------------------------------------------------- disjoint chains

  /** No model occurs twice among the keys and entries of the chains. */
  ghost predicate NamedOnce(chains: Chains) {
    && (forall p <- chains :: p !in chains[p])
    && (forall p <- chains, i, j :: 0 <= i < j < |chains[p]| ==> chains[p][i] != chains[p][j])
    && (forall p, q, m :: p in chains && q in chains && p != q && Mentions(p, chains[p], m) ==> !Mentions(q, chains[q], m))
  }

  ghost predicate Apart(a: Chains, b: Chains) {
    forall p, q, m :: p in a && q in b && Mentions(p, a[p], m) ==> !Mentions(q, b[q], m)
  }

  /** The chain as it is walked: the primary and then its alternatives. */
  function Path(chains: Chains, p: Model): seq<Model>
    requires p in chains
  {
    [p] + chains[p]
  }

  lemma {:induction false} PositionIs(models: seq<Model>, i: nat)
    requires i < |models| && forall a, b :: 0 <= a < b < |models| ==> models[a] != models[b]
    ensures Position(models, models[i]) == Some(i)
  {
    if i > 0 {
      assert models[0] != models[i] && models[1..][i - 1] == models[i];
      PositionIs(models[1..], i - 1);
    }
  }

  /** In a chain that names nothing twice, the answer for a model is its successor. */
  lemma AnswerIsSuccessor(chains: Chains, p: Model, i: nat)
    requires NamedOnce(chains) && p in chains && i <= |chains[p]|
    ensures Mentions(p, chains[p], Path(chains, p)[i])
    ensures Answer(p, chains[p], Path(chains, p)[i]) == At(chains[p], i)
  {
    if i > 0 {
      PositionIs(chains[p], i - 1);
      assert chains[p][i - 1] in chains[p];
    }
  }

  /** Only the chain `p` mentions the model, so every walk finds it. */
  lemma {:induction false} OnlyChainDecides(order: seq<Model>, chains: Chains, p: Model, m: Model)
    requires Walks(order, chains) && p in chains && Mentions(p, chains[p], m)
    requires forall q <- chains :: q != p ==> !Mentions(q, chains[q], m)
    ensures InOrder(order, chains, m) == Some(Answer(p, chains[p], m))
  {
    InOrderFrom(order, chains, m);
    assert p in order;
  }

  lemma {:induction false} NobodyDecides(order: seq<Model>, chains: Chains, m: Model)
    requires forall k <- order :: k in chains
    requires forall q <- chains :: !Mentions(q, chains[q], m)
    ensures InOrder(order, chains, m) == None
  {
    InOrderFrom(order, chains, m);
  }

  lemma {:induction false} OnlyEntriesDecide(order: seq<Model>, chains: Chains, p: Model, m: Model)
    requires (forall k <- order :: k in chains) && p in order && m in chains[p]
    requires forall q <- chains :: q != p ==> m !in chains[q]
    ensures AmongEntries(order, chains, m) == Onward(chains[p], m)
  {
    if order[0] != p {
      OnlyEntriesDecide(order[1..], chains, p, m);
    }
  }

  /** Whatever a database chain mentions, even at its end, is answered without the configured chains. */
  lemma DatabaseDecidesAlone(dbOrder: seq<Model>, db: Chains, a: seq<Model>, configA: Chains, b: seq<Model>, configB: Chains, p: Model, m: Model)
    requires Walks(dbOrder, db) && Walks(a, configA) && Walks(b, configB)
    requires p in db && Mentions(p, db[p], m)
    ensures Next(dbOrder, db, a, configA, m) == Next(dbOrder, db, b, configB, m)
  {
    InOrderFrom(dbOrder, db, m);
    assert p in dbOrder;
  }

  /** In one chain a primary is followed by the first entry, any other model by the entry behind its first occurrence. */
  lemma AnswerStandsBehind(primary: Model, models: seq<Model>, m: Model, i: nat)
    requires i < |models| && models[i] == m && m !in models[..i]
    ensures Answer(primary, models, primary) == Some(models[0])
    ensures m != primary ==> Answer(primary, models, m) == if i + 1 < |models| then Some(models[i + 1]) else None
  {
    FirstPosition(models, m, i);
  }

  lemma {:induction false} FirstPosition(models: seq<Model>, m: Model, i: nat)
    requires i < |models| && models[i] == m && m !in models[..i]
    ensures Position(models, m) == Some(i)
  {
    if i > 0 {
      assert models[..i][0] == models[0] && models[..i][1..] == models[1..][..i - 1];
      FirstPosition(models[1..], m, i - 1);
    }
  }

  /** Which chain answers: the one of the database that mentions the model, else the configured one of that primary, else the configured one that holds it. */
  lemma OneChainAnswers(dbOrder: seq<Model>, db: Chains, configOrder: seq<Model>, config: Chains, p: Model, m: Model)
    requires Walks(dbOrder, db) && Walks(configOrder, config)
    ensures p in db && Mentions(p, db[p], m) && (forall q <- db :: q != p ==> !Mentions(q, db[q], m)) ==>
              Next(dbOrder, db, configOrder, config, m) == Answer(p, db[p], m)
    ensures !DbMentions(db, m) && m in config ==>
              Next(dbOrder, db, configOrder, config, m) == if config[m] == [] then None else Some(config[m][0])
    ensures !DbMentions(db, m) && m !in config && p in config && m in config[p] &&
            (forall q <- config :: q != p ==> m !in config[q]) ==>
              Next(dbOrder, db, configOrder, config, m) == Answer(p, config[p], m)
    ensures !DbMentions(db, m) && m !in config && (forall q <- config :: m !in config[q]) ==>
              Next(dbOrder, db, configOrder, config, m) == None
  {
    DecidesIffMentions(dbOrder, db, m);
    AmongEntriesFrom(configOrder, config, m);
    if p in db && Mentions(p, db[p], m) && forall q <- db :: q != p ==> !Mentions(q, db[q], m) {
      OnlyChainDecides(dbOrder, db, p, m);
    }
    if p in config && m in config[p] && forall q <- config :: q != p ==> m !in config[q] {
      OnlyEntriesDecide(configOrder, config, p, m);
    }
  }

  /** A displayed chain is the one that is walked, unless another database chain holds its primary among its entries. */
  lemma DisplayedChainIsWalked(dbOrder: seq<Model>, db: Chains, configOrder: seq<Model>, config: Chains, p: Model)
    requires Walks(dbOrder, db) && Walks(configOrder, config) && p in Merged(config, db)
    requires forall q <- db :: q != p ==> p !in db[q]
    ensures Next(dbOrder, db, configOrder, config, p) == At(Merged(config, db)[p], 0)
  {
    InOrderFrom(dbOrder, db, p);
    if p in db {
      assert p in dbOrder;
    }
  }

  /** Disjoint chains: every step from a model of a chain leads to its successor in that chain, whatever the walks. */
  lemma NextIsSuccessor(dbOrder: seq<Model>, db: Chains, configOrder: seq<Model>, config: Chains, chains: Chains, p: Model, i: nat)
    requires Walks(dbOrder, db) && Walks(configOrder, config)
    requires NamedOnce(db) && NamedOnce(config) && Apart(db, config)
    requires (chains == db || chains == config) && p in chains && i <= |chains[p]|
    ensures Next(dbOrder, db, configOrder, config, Path(chains, p)[i]) == At(chains[p], i)
  {
    var m := Path(chains, p)[i];
    AnswerIsSuccessor(chains, p, i);
    if chains == db {
      OnlyChainDecides(dbOrder, db, p, m);
    } else {
      NobodyDecides(dbOrder, db, m);
      if i > 0 {
        assert m in config[p] && m != p && Mentions(p, config[p], m);
        assert m !in config by {
          assert m in config ==> Mentions(m, config[m], m);
        }
        assert forall q <- config :: q != p ==> !Mentions(q, config[q], m);
        OnlyEntriesDecide(configOrder, config, p, m);
      }
    }
  }

  /** The models tried from `m` on, at most `limit` of them. */
  function Tried(dbOrder: seq<Model>, db: Chains, configOrder: seq<Model>, config: Chains, m: Model, limit: nat): seq<Model>
    requires (forall k <- dbOrder :: k in db) && (forall k <- configOrder :: k in config)
    decreases limit
  {
    if limit == 0 then []
    else
      match Next(dbOrder, db, configOrder, config, m)
      case None => [m]
      case Some(next) => [m] + Tried(dbOrder, db, configOrder, config, next, limit - 1)
  }

  lemma {:induction false} TriedFrom(dbOrder: seq<Model>, db: Chains, configOrder: seq<Model>, config: Chains, chains: Chains, p: Model, i: nat, limit: nat)
    requires Walks(dbOrder, db) && Walks(configOrder, config)
    requires NamedOnce(db) && NamedOnce(config) && Apart(db, config)
    requires (chains == db || chains == config) && p in chains && i <= |chains[p]| < limit + i
    ensures Tried(dbOrder, db, configOrder, config, Path(chains, p)[i], limit) == Path(chains, p)[i..]
    decreases limit
  {
    var path := Path(chains, p);
    NextIsSuccessor(dbOrder, db, configOrder, config, chains, p, i);
    if i < |chains[p]| {
      TriedFrom(dbOrder, db, configOrder, config, chains, p, i + 1, limit - 1);
      assert path[i + 1] == chains[p][i];
      assert path[i..] == [path[i]] + path[i + 1..];
    } else {
      assert path[i..] == [path[i]];
    }
  }

  /** Walking on from a primary tries its chain exactly in order and then ends, however long one is ready to go on. */
  lemma WalkVisitsChain(dbOrder: seq<Model>, db: Chains, configOrder: seq<Model>, config: Chains, chains: Chains, p: Model, limit: nat)
    requires Walks(dbOrder, db) && Walks(configOrder, config)
    requires NamedOnce(db) && NamedOnce(config) && Apart(db, config)
    requires (chains == db || chains == config) && p in chains && |chains[p]| < limit
    ensures Tried(dbOrder, db, configOrder, config, p, limit) == Path(chains, p)
  {
    TriedFrom(dbOrder, db, configOrder, config, chains, p, 0, limit);
    assert Path(chains, p)[0..] == Path(chains, p);
  }
}

/** The overlap rule both scripts share: for every feature and every cluster on a
    chromosome that both tables hold, the cluster's start is tested against three zones
    around the feature, and each zone it falls in adds one to that zone's counter. */
module Overlap {
  import opened Records

  /** The `[start, stop]` pair a table stores first for a feature or a cluster. */
  datatype Interval = Interval(start: int, stop: int)

  /** `upstream_bp`, `downstream_bp` and `feature_body`. */
  datatype ZoneConfig = ZoneConfig(upstreamBp: int, downstreamBp: int, featureBody: bool)

  /** `[upstream_overlaps, body_overlaps, downstream_overlaps]`. */
  datatype Tally = Tally(upstream: nat, body: nat, downstream: nat)

  const Zero := Tally(0, 0, 0)

  function Add(a: Tally, b: Tally): Tally
  {
    Tally(a.upstream + b.upstream, a.body + b.body, a.downstream + b.downstream)
  }

  /** The output row `[upstream_overlaps, body_overlaps, downstream_overlaps]`. */
  function AsRow(t: Tally): seq<int>
  {
    [t.upstream, t.body, t.downstream]
  }

  datatype Zone = Upstream | Body | Downstream

  /** The three tests, each with both bounds inclusive and only the cluster start `s`
      compared. */
  predicate InZone(cfg: ZoneConfig, zone: Zone, f: Interval, s: int)
  {
    match zone
    case Upstream => cfg.upstreamBp > 0 && f.start - cfg.upstreamBp <= s <= f.start
    case Body => cfg.featureBody && f.start <= s <= f.stop
    case Downstream => cfg.downstreamBp > 0 && f.stop + cfg.downstreamBp >= s >= f.stop
  }

  /** The counter of a tally that a zone increments. */
  function Counter(t: Tally, zone: Zone): nat
  {
    match zone
    case Upstream => t.upstream
    case Body => t.body
    case Downstream => t.downstream
  }

  /** What one (feature, cluster) pair adds: one to the counter of each zone that holds
      the cluster start. */
  function Classify(cfg: ZoneConfig, f: Interval, s: int): (t: Tally)
    ensures forall zone :: Counter(t, zone) == (if InZone(cfg, zone, f, s) then 1 else 0)
  {
    Tally(if InZone(cfg, Upstream, f, s) then 1 else 0,
          if InZone(cfg, Body, f, s) then 1 else 0,
          if InZone(cfg, Downstream, f, s) then 1 else 0)
  }

  /** The zones are tested independently: whether one holds does not depend on the
      settings of the other two. */
  lemma ZonesIndependent(cfg1: ZoneConfig, cfg2: ZoneConfig, f: Interval, s: int)
    ensures cfg1.featureBody == cfg2.featureBody ==>
      Classify(cfg1, f, s).body == Classify(cfg2, f, s).body
    ensures cfg1.upstreamBp == cfg2.upstreamBp ==>
      Classify(cfg1, f, s).upstream == Classify(cfg2, f, s).upstream
    ensures cfg1.downstreamBp == cfg2.downstreamBp ==>
      Classify(cfg1, f, s).downstream == Classify(cfg2, f, s).downstream
  {
  }

  /** A start at the feature start is both upstream and in the body; a start at the
      feature stop is both in the body and downstream. */
  lemma BoundsInclusive(cfg: ZoneConfig, f: Interval)
    requires f.start <= f.stop
    ensures cfg.upstreamBp > 0 ==> Classify(cfg, f, f.start).upstream == 1
    ensures cfg.featureBody ==> Classify(cfg, f, f.start).body == 1
    ensures cfg.featureBody ==> Classify(cfg, f, f.stop).body == 1
    ensures cfg.downstreamBp > 0 ==> Classify(cfg, f, f.stop).downstream == 1
    ensures cfg.upstreamBp > 0 ==> Classify(cfg, f, f.start - cfg.upstreamBp).upstream == 1
    ensures cfg.downstreamBp > 0 ==> Classify(cfg, f, f.stop + cfg.downstreamBp).downstream == 1
  {
  }

  /** The innermost loop: the counters the clusters with ids in `keys` add for one
      feature `f`. */
  ghost function ClusterSum<C>(cfg: ZoneConfig, f: Interval, cs: map<string, C>, start: C -> int,
                               keys: set<string>): Tally
    requires keys <= cs.Keys
    decreases keys
  {
    if keys == {} then Zero
    else
      var k :| k in keys;
      Add(Classify(cfg, f, start(cs[k])), ClusterSum(cfg, f, cs, start, keys - {k}))
  }

  /** The middle loop: the counters the features with ids in `keys` add against all the
      clusters `cs` of the same chromosome. */
  ghost function FeatureSum<F, C>(cfg: ZoneConfig, fs: map<string, F>, span: F -> Interval,
                                  cs: map<string, C>, start: C -> int, keys: set<string>): Tally
    requires keys <= fs.Keys
    decreases keys
  {
    if keys == {} then Zero
    else
      var k :| k in keys;
      Add(ClusterSum(cfg, span(fs[k]), cs, start, cs.Keys),
          FeatureSum(cfg, fs, span, cs, start, keys - {k}))
  }

  /** What chromosome `c` of the feature table adds: nothing unless the cluster table
      has it too. */
  ghost function ChromTally<F, C>(cfg: ZoneConfig, features: NestedMap<F>, span: F -> Interval,
                                  clusters: NestedMap<C>, start: C -> int, c: string): Tally
    requires c in features
  {
    if c in clusters then FeatureSum(cfg, features[c], span, clusters[c], start, features[c].Keys)
    else Zero
  }

  /** The outer loop: the counters the chromosomes in `keys` add. */
  ghost function ChromSum<F, C>(cfg: ZoneConfig, features: NestedMap<F>, span: F -> Interval,
                                clusters: NestedMap<C>, start: C -> int, keys: set<string>): Tally
    requires keys <= features.Keys
    decreases keys
  {
    if keys == {} then Zero
    else
      var c :| c in keys;
      Add(ChromTally(cfg, features, span, clusters, start, c),
          ChromSum(cfg, features, span, clusters, start, keys - {c}))
  }

  /** The tally of the whole feature table against the whole cluster table. `span`
      reads a feature's coordinates and `start` a cluster's start from what the tables
      store. */
  ghost function OverlapCounts<F, C>(cfg: ZoneConfig, features: NestedMap<F>, span: F -> Interval,
                                     clusters: NestedMap<C>, start: C -> int): Tally
  {
    ChromSum(cfg, features, span, clusters, start, features.Keys)
  }

  lemma AddZero(t: Tally)
    ensures Add(Zero, t) == t && Add(t, Zero) == t
  {
  }

  lemma AddAssoc(a: Tally, b: Tally, c: Tally)
    ensures Add(a, Add(b, c)) == Add(Add(a, b), c)
  {
  }

  lemma AddSwap(a: Tally, b: Tally, r: Tally)
    ensures Add(a, Add(b, r)) == Add(b, Add(a, r))
  {
  }

  /** The sums do not depend on the order the ids are visited in: any id can be taken
      first. */
  lemma {:induction false} ClusterSumRemove<C>(cfg: ZoneConfig, f: Interval, cs: map<string, C>,
                                              start: C -> int, keys: set<string>, k: string)
    requires keys <= cs.Keys && k in keys
    ensures ClusterSum(cfg, f, cs, start, keys) ==
      Add(Classify(cfg, f, start(cs[k])), ClusterSum(cfg, f, cs, start, keys - {k}))
    decreases keys
  {
    var x :| x in keys && ClusterSum(cfg, f, cs, start, keys) ==
      Add(Classify(cfg, f, start(cs[x])), ClusterSum(cfg, f, cs, start, keys - {x}));
    if x != k {
      ClusterSumRemove(cfg, f, cs, start, keys - {x}, k);
      ClusterSumRemove(cfg, f, cs, start, keys - {k}, x);
      assert keys - {x} - {k} == keys - {k} - {x};
      AddSwap(Classify(cfg, f, start(cs[x])), Classify(cfg, f, start(cs[k])),
              ClusterSum(cfg, f, cs, start, keys - {x} - {k}));
    }
  }

  lemma {:induction false} FeatureSumRemove<F, C>(cfg: ZoneConfig, fs: map<string, F>,
                                                 span: F -> Interval, cs: map<string, C>,
                                                 start: C -> int, keys: set<string>, k: string)
    requires keys <= fs.Keys && k in keys
    ensures FeatureSum(cfg, fs, span, cs, start, keys) ==
      Add(ClusterSum(cfg, span(fs[k]), cs, start, cs.Keys),
          FeatureSum(cfg, fs, span, cs, start, keys - {k}))
    decreases keys
  {
    var x :| x in keys && FeatureSum(cfg, fs, span, cs, start, keys) ==
      Add(ClusterSum(cfg, span(fs[x]), cs, start, cs.Keys),
          FeatureSum(cfg, fs, span, cs, start, keys - {x}));
    if x != k {
      FeatureSumRemove(cfg, fs, span, cs, start, keys - {x}, k);
      FeatureSumRemove(cfg, fs, span, cs, start, keys - {k}, x);
      assert keys - {x} - {k} == keys - {k} - {x};
      AddSwap(ClusterSum(cfg, span(fs[x]), cs, start, cs.Keys),
              ClusterSum(cfg, span(fs[k]), cs, start, cs.Keys),
              FeatureSum(cfg, fs, span, cs, start, keys - {x} - {k}));
    }
  }

  lemma {:induction false} ChromSumRemove<F, C>(cfg: ZoneConfig, features: NestedMap<F>,
                                               span: F -> Interval, clusters: NestedMap<C>,
                                               start: C -> int, keys: set<string>, c: string)
    requires keys <= features.Keys && c in keys
    ensures ChromSum(cfg, features, span, clusters, start, keys) ==
      Add(ChromTally(cfg, features, span, clusters, start, c),
          ChromSum(cfg, features, span, clusters, start, keys - {c}))
    decreases keys
  {
    var x :| x in keys && ChromSum(cfg, features, span, clusters, start, keys) ==
      Add(ChromTally(cfg, features, span, clusters, start, x),
          ChromSum(cfg, features, span, clusters, start, keys - {x}));
    if x != c {
      ChromSumRemove(cfg, features, span, clusters, start, keys - {x}, c);
      ChromSumRemove(cfg, features, span, clusters, start, keys - {c}, x);
      assert keys - {x} - {c} == keys - {c} - {x};
      AddSwap(ChromTally(cfg, features, span, clusters, start, x),
              ChromTally(cfg, features, span, clusters, start, c),
              ChromSum(cfg, features, span, clusters, start, keys - {x} - {c}));
    }
  }

  /** The innermost loop of the source, `for cluster in clusters[chromosome]`, adding to
      the counters it is given. */
  method CountClusters<C>(cfg: ZoneConfig, f: Interval, cs: map<string, C>, start: C -> int,
                          t0: Tally) returns (t: Tally)
    ensures t == Add(t0, ClusterSum(cfg, f, cs, start, cs.Keys))
  {
    var upstream, body, downstream := t0.upstream, t0.body, t0.downstream;
    var todo := cs.Keys;
    while todo != {}
      invariant todo <= cs.Keys
      invariant Add(t0, ClusterSum(cfg, f, cs, start, cs.Keys)) ==
        Add(Tally(upstream, body, downstream), ClusterSum(cfg, f, cs, start, todo))
      decreases todo
    {
      var cluster :| cluster in todo;
      var clusterStart := start(cs[cluster]);
      ClusterSumRemove(cfg, f, cs, start, todo, cluster);
      if cfg.upstreamBp > 0 && f.start - cfg.upstreamBp <= clusterStart <= f.start {
        upstream := upstream + 1;
      }
      if cfg.featureBody && f.start <= clusterStart <= f.stop {
        body := body + 1;
      }
      if cfg.downstreamBp > 0 && f.stop + cfg.downstreamBp >= clusterStart >= f.stop {
        downstream := downstream + 1;
      }
      todo := todo - {cluster};
    }
    t := Tally(upstream, body, downstream);
  }

  /** The middle loop, `for feature_id in features[chromosome]`. */
  method CountFeatures<F, C>(cfg: ZoneConfig, fs: map<string, F>, span: F -> Interval,
                             cs: map<string, C>, start: C -> int, t0: Tally) returns (t: Tally)
    ensures t == Add(t0, FeatureSum(cfg, fs, span, cs, start, fs.Keys))
  {
    t := t0;
    var todo := fs.Keys;
    while todo != {}
      invariant todo <= fs.Keys
      invariant Add(t0, FeatureSum(cfg, fs, span, cs, start, fs.Keys)) ==
        Add(t, FeatureSum(cfg, fs, span, cs, start, todo))
      decreases todo
    {
      var featureId :| featureId in todo;
      FeatureSumRemove(cfg, fs, span, cs, start, todo, featureId);
      t := CountClusters(cfg, span(fs[featureId]), cs, start, t);
      todo := todo - {featureId};
    }
  }

  /** One iteration of the outer loop: the chromosome's features against its clusters,
      when the cluster table has the chromosome. */
  method CountChromosome<F, C>(cfg: ZoneConfig, features: NestedMap<F>, span: F -> Interval,
                               clusters: NestedMap<C>, start: C -> int, chromosome: string,
                               t0: Tally) returns (t: Tally)
    requires chromosome in features
    ensures t == Add(t0, ChromTally(cfg, features, span, clusters, start, chromosome))
  {
    if chromosome in clusters {
      t := CountFeatures(cfg, features[chromosome], span, clusters[chromosome], start, t0);
    } else {
      t := t0;
    }
  }

  /** The outer loop, `for chromosome in features`, starting from three counters at
      zero. */
  method CountOverlaps<F, C>(cfg: ZoneConfig, features: NestedMap<F>, span: F -> Interval,
                             clusters: NestedMap<C>, start: C -> int) returns (t: Tally)
    ensures t == OverlapCounts(cfg, features, span, clusters, start)
  {
    ghost var total := OverlapCounts(cfg, features, span, clusters, start);
    t := Zero;
    var todo := features.Keys;
    AddZero(total);
    while todo != {}
      invariant todo <= features.Keys
      invariant total == Add(t, ChromSum(cfg, features, span, clusters, start, todo))
      decreases todo
    {
      var chromosome :| chromosome in todo;
      ChromSumRemove(cfg, features, span, clusters, start, todo, chromosome);
      AddAssoc(t, ChromTally(cfg, features, span, clusters, start, chromosome),
               ChromSum(cfg, features, span, clusters, start, todo - {chromosome}));
      t := CountChromosome(cfg, features, span, clusters, start, chromosome, t);
      todo := todo - {chromosome};
    }
    AddZero(t);
  }

  /** Whether a zone is switched on at all: `upstream_bp > 0`, `feature_body`,
      `downstream_bp > 0`. */
  predicate Enabled(cfg: ZoneConfig, zone: Zone)
  {
    match zone
    case Upstream => cfg.upstreamBp > 0
    case Body => cfg.featureBody
    case Downstream => cfg.downstreamBp > 0
  }

  /** Each counter of `t` is at most `n`, and a counter whose zone is switched off
      is zero. */
  ghost predicate Within(cfg: ZoneConfig, t: Tally, n: nat)
  {
    forall zone :: Counter(t, zone) <= n && (!Enabled(cfg, zone) ==> Counter(t, zone) == 0)
  }

  lemma WithinAdd(cfg: ZoneConfig, a: Tally, n: nat, b: Tally, m: nat)
    requires Within(cfg, a, n) && Within(cfg, b, m)
    ensures Within(cfg, Add(a, b), n + m)
  {
    forall zone ensures Counter(Add(a, b), zone) == Counter(a, zone) + Counter(b, zone) {
    }
  }

  /** One pair adds at most one to each counter and nothing to a switched-off one. */
  lemma ClassifyWithin(cfg: ZoneConfig, f: Interval, s: int)
    ensures Within(cfg, Classify(cfg, f, s), 1)
  {
    forall zone ensures InZone(cfg, zone, f, s) ==> Enabled(cfg, zone) {
    }
  }

  lemma {:induction false} ClusterSumWithin<C>(cfg: ZoneConfig, f: Interval, cs: map<string, C>,
                                              start: C -> int, keys: set<string>)
    requires keys <= cs.Keys
    ensures Within(cfg, ClusterSum(cfg, f, cs, start, keys), |keys|)
    decreases keys
  {
    if keys == {} {
      assert ClusterSum(cfg, f, cs, start, keys) == Zero;
    } else {
      var k :| k in keys && ClusterSum(cfg, f, cs, start, keys) ==
        Add(Classify(cfg, f, start(cs[k])), ClusterSum(cfg, f, cs, start, keys - {k}));
      ClassifyWithin(cfg, f, start(cs[k]));
      ClusterSumWithin(cfg, f, cs, start, keys - {k});
      WithinAdd(cfg, Classify(cfg, f, start(cs[k])), 1,
                ClusterSum(cfg, f, cs, start, keys - {k}), |keys - {k}|);
    }
  }

  lemma {:induction false} FeatureSumWithin<F, C>(cfg: ZoneConfig, fs: map<string, F>,
                                                 span: F -> Interval, cs: map<string, C>,
                                                 start: C -> int, keys: set<string>)
    requires keys <= fs.Keys
    ensures Within(cfg, FeatureSum(cfg, fs, span, cs, start, keys), Times(|keys|, |cs|))
    decreases keys
  {
    if keys == {} {
      assert FeatureSum(cfg, fs, span, cs, start, keys) == Zero;
    } else {
      var k :| k in keys && FeatureSum(cfg, fs, span, cs, start, keys) ==
        Add(ClusterSum(cfg, span(fs[k]), cs, start, cs.Keys),
            FeatureSum(cfg, fs, span, cs, start, keys - {k}));
      assert |keys - {k}| == |keys| - 1;
      ClusterSumWithin(cfg, span(fs[k]), cs, start, cs.Keys);
      FeatureSumWithin(cfg, fs, span, cs, start, keys - {k});
      WithinAdd(cfg, ClusterSum(cfg, span(fs[k]), cs, start, cs.Keys), |cs|,
                FeatureSum(cfg, fs, span, cs, start, keys - {k}), Times(|keys - {k}|, |cs|));
    }
  }

  /** `a * b`, written as repeated addition. */
  function Times(a: nat, b: nat): nat
  {
    if a == 0 then 0 else b + Times(a - 1, b)
  }

  lemma {:induction false} TimesIsProduct(a: nat, b: nat)
    ensures Times(a, b) == a * b
  {
    if a > 0 {
      TimesIsProduct(a - 1, b);
    }
  }

  /** The sum, over the chromosomes in `keys` that both tables hold, of the number of
      features times the number of clusters: the number of pairs the loops visit. */
  ghost function PairSum<F, C>(features: NestedMap<F>, clusters: NestedMap<C>,
                               keys: set<string>): nat
    requires keys <= features.Keys
    decreases keys
  {
    if keys == {} then 0
    else
      var c :| c in keys;
      ChromPairs(features, clusters, c) + PairSum(features, clusters, keys - {c})
  }

  ghost function ChromPairs<F, C>(features: NestedMap<F>, clusters: NestedMap<C>, c: string): nat
    requires c in features
  {
    if c in clusters then |features[c]| * |clusters[c]| else 0
  }

  ghost function PairCount<F, C>(features: NestedMap<F>, clusters: NestedMap<C>): nat
  {
    PairSum(features, clusters, features.Keys)
  }

  lemma {:induction false} PairSumRemove<F, C>(features: NestedMap<F>, clusters: NestedMap<C>,
                                              keys: set<string>, c: string)
    requires keys <= features.Keys && c in keys
    ensures PairSum(features, clusters, keys) ==
      ChromPairs(features, clusters, c) + PairSum(features, clusters, keys - {c})
    decreases keys
  {
    var x :| x in keys && PairSum(features, clusters, keys) ==
      ChromPairs(features, clusters, x) + PairSum(features, clusters, keys - {x});
    if x != c {
      PairSumRemove(features, clusters, keys - {x}, c);
      PairSumRemove(features, clusters, keys - {c}, x);
      assert keys - {x} - {c} == keys - {c} - {x};
    }
  }

  lemma {:induction false} ChromSumWithin<F, C>(cfg: ZoneConfig, features: NestedMap<F>,
                                               span: F -> Interval, clusters: NestedMap<C>,
                                               start: C -> int, keys: set<string>)
    requires keys <= features.Keys
    ensures Within(cfg, ChromSum(cfg, features, span, clusters, start, keys),
                   PairSum(features, clusters, keys))
    decreases keys
  {
    if keys == {} {
      assert ChromSum(cfg, features, span, clusters, start, keys) == Zero;
    } else {
      var c :| c in keys && ChromSum(cfg, features, span, clusters, start, keys) ==
        Add(ChromTally(cfg, features, span, clusters, start, c),
            ChromSum(cfg, features, span, clusters, start, keys - {c}));
      PairSumRemove(features, clusters, keys, c);
      if c in clusters {
        FeatureSumWithin(cfg, features[c], span, clusters[c], start, features[c].Keys);
        TimesIsProduct(|features[c]|, |clusters[c]|);
      } else {
        assert Within(cfg, Zero, 0);
      }
      ChromSumWithin(cfg, features, span, clusters, start, keys - {c});
      WithinAdd(cfg, ChromTally(cfg, features, span, clusters, start, c),
                ChromPairs(features, clusters, c),
                ChromSum(cfg, features, span, clusters, start, keys - {c}),
                PairSum(features, clusters, keys - {c}));
    }
  }

  /** Each pair the loops visit adds at most one to each counter, so no counter exceeds
      the number of pairs and the three together add up to at most three per pair; a
      zone that is switched off stays at zero whatever the tables hold. */
  lemma OverlapCountsBounds<F, C>(cfg: ZoneConfig, features: NestedMap<F>, span: F -> Interval,
                                  clusters: NestedMap<C>, start: C -> int)
    ensures var t, n := OverlapCounts(cfg, features, span, clusters, start),
                        PairCount(features, clusters);
      && t.upstream <= n && t.body <= n && t.downstream <= n
      && t.upstream + t.body + t.downstream <= 3 * n
      && (cfg.upstreamBp <= 0 ==> t.upstream == 0)
      && (!cfg.featureBody ==> t.body == 0)
      && (cfg.downstreamBp <= 0 ==> t.downstream == 0)
  {
    var t := OverlapCounts(cfg, features, span, clusters, start);
    ChromSumWithin(cfg, features, span, clusters, start, features.Keys);
    assert Counter(t, Upstream) == t.upstream && Counter(t, Body) == t.body &&
           Counter(t, Downstream) == t.downstream;
  }

  /** A chromosome that only the feature table holds adds nothing: the tally is that of
      the other chromosomes. */
  lemma MissingChromosome<F, C>(cfg: ZoneConfig, features: NestedMap<F>, span: F -> Interval,
                                clusters: NestedMap<C>, start: C -> int, c: string)
    requires c in features && c !in clusters
    ensures OverlapCounts(cfg, features, span, clusters, start) ==
      ChromSum(cfg, features, span, clusters, start, features.Keys - {c})
  {
    ChromSumRemove(cfg, features, span, clusters, start, features.Keys, c);
    AddZero(ChromSum(cfg, features, span, clusters, start, features.Keys - {c}));
  }

  lemma {:induction false} DisjointPairs<F, C>(features: NestedMap<F>, clusters: NestedMap<C>,
                                              keys: set<string>)
    requires keys <= features.Keys && keys !! clusters.Keys
    ensures PairSum(features, clusters, keys) == 0
    decreases keys
  {
    if keys != {} {
      var c :| c in keys && PairSum(features, clusters, keys) ==
        ChromPairs(features, clusters, c) + PairSum(features, clusters, keys - {c});
      assert c !in clusters;
      assert ChromPairs(features, clusters, c) == 0;
      DisjointPairs(features, clusters, keys - {c});
      assert PairSum(features, clusters, keys - {c}) == 0;
    }
  }

  /** Tables without a chromosome in common give `[0, 0, 0]`. */
  lemma DisjointChromosomes<F, C>(cfg: ZoneConfig, features: NestedMap<F>, span: F -> Interval,
                                  clusters: NestedMap<C>, start: C -> int)
    requires features.Keys !! clusters.Keys
    ensures OverlapCounts(cfg, features, span, clusters, start) == Zero
  {
    DisjointPairs(features, clusters, features.Keys);
    OverlapCountsBounds(cfg, features, span, clusters, start);
  }

  /** Two cluster tables with the same chromosomes, the same ids and the same starts;
      what else they store, the stops in particular, may differ. */
  ghost predicate SameStarts<C>(clusters1: NestedMap<C>, clusters2: NestedMap<C>, start: C -> int)
  {
    && clusters1.Keys == clusters2.Keys
    && forall c :: c in clusters1 ==> SameIdStarts(clusters1[c], clusters2[c], start)
  }

  ghost predicate SameIdStarts<C>(cs1: map<string, C>, cs2: map<string, C>, start: C -> int)
  {
    cs1.Keys == cs2.Keys && forall k :: k in cs1 ==> start(cs1[k]) == start(cs2[k])
  }

  lemma {:induction false} ClusterSumSameStarts<C>(cfg: ZoneConfig, f: Interval,
                                                  cs1: map<string, C>, cs2: map<string, C>,
                                                  start: C -> int, keys: set<string>)
    requires keys <= cs1.Keys && SameIdStarts(cs1, cs2, start)
    ensures ClusterSum(cfg, f, cs1, start, keys) == ClusterSum(cfg, f, cs2, start, keys)
    decreases keys
  {
    if keys != {} {
      var k :| k in keys && ClusterSum(cfg, f, cs1, start, keys) ==
        Add(Classify(cfg, f, start(cs1[k])), ClusterSum(cfg, f, cs1, start, keys - {k}));
      ClusterSumRemove(cfg, f, cs2, start, keys, k);
      ClusterSumSameStarts(cfg, f, cs1, cs2, start, keys - {k});
    }
  }

  lemma {:induction false} FeatureSumSameStarts<F, C>(cfg: ZoneConfig, fs: map<string, F>,
                                                     span: F -> Interval,
                                                     cs1: map<string, C>, cs2: map<string, C>,
                                                     start: C -> int, keys: set<string>)
    requires keys <= fs.Keys && SameIdStarts(cs1, cs2, start)
    ensures FeatureSum(cfg, fs, span, cs1, start, keys) == FeatureSum(cfg, fs, span, cs2, start, keys)
    decreases keys
  {
    if keys != {} {
      var k :| k in keys && FeatureSum(cfg, fs, span, cs1, start, keys) ==
        Add(ClusterSum(cfg, span(fs[k]), cs1, start, cs1.Keys),
            FeatureSum(cfg, fs, span, cs1, start, keys - {k}));
      FeatureSumRemove(cfg, fs, span, cs2, start, keys, k);
      ClusterSumSameStarts(cfg, span(fs[k]), cs1, cs2, start, cs1.Keys);
      FeatureSumSameStarts(cfg, fs, span, cs1, cs2, start, keys - {k});
    }
  }

  lemma {:induction false} ChromSumSameStarts<F, C>(cfg: ZoneConfig, features: NestedMap<F>,
                                                   span: F -> Interval,
                                                   clusters1: NestedMap<C>, clusters2: NestedMap<C>,
                                                   start: C -> int, keys: set<string>)
    requires keys <= features.Keys && SameStarts(clusters1, clusters2, start)
    ensures ChromSum(cfg, features, span, clusters1, start, keys) ==
            ChromSum(cfg, features, span, clusters2, start, keys)
    decreases keys
  {
    if keys != {} {
      var c :| c in keys && ChromSum(cfg, features, span, clusters1, start, keys) ==
        Add(ChromTally(cfg, features, span, clusters1, start, c),
            ChromSum(cfg, features, span, clusters1, start, keys - {c}));
      ChromSumRemove(cfg, features, span, clusters2, start, keys, c);
      ChromTallySameStarts(cfg, features, span, clusters1, clusters2, start, c);
      ChromSumSameStarts(cfg, features, span, clusters1, clusters2, start, keys - {c});
    }
  }

  lemma ChromTallySameStarts<F, C>(cfg: ZoneConfig, features: NestedMap<F>, span: F -> Interval,
                                   clusters1: NestedMap<C>, clusters2: NestedMap<C>,
                                   start: C -> int, c: string)
    requires c in features && SameStarts(clusters1, clusters2, start)
    ensures ChromTally(cfg, features, span, clusters1, start, c) ==
            ChromTally(cfg, features, span, clusters2, start, c)
  {
    if c in clusters1 {
      FeatureSumSameStarts(cfg, features[c], span, clusters1[c], clusters2[c], start,
                           features[c].Keys);
    }
  }

  /** Only the cluster starts are compared: cluster tables that agree on every start
      give the same tally, whatever their stops. */
  lemma ClusterStopsIgnored<F, C>(cfg: ZoneConfig, features: NestedMap<F>, span: F -> Interval,
                                  clusters1: NestedMap<C>, clusters2: NestedMap<C>,
                                  start: C -> int)
    requires SameStarts(clusters1, clusters2, start)
    ensures OverlapCounts(cfg, features, span, clusters1, start) ==
            OverlapCounts(cfg, features, span, clusters2, start)
  {
    ChromSumSameStarts(cfg, features, span, clusters1, clusters2, start, features.Keys);
  }

  /** The configuration, feature and clusters of the worked example below. */
  const ExampleConfig := ZoneConfig(20, 0, true)
  const ExampleFeature := Interval(90, 120)
  const ExampleClusters := map["clusterA" := Interval(100, 110), "clusterB" := Interval(500, 510)]

  function StartOf(i: Interval): int { i.start }

  lemma ClusterSumOne<C>(cfg: ZoneConfig, f: Interval, cs: map<string, C>, start: C -> int,
                         k: string)
    requires k in cs
    ensures ClusterSum(cfg, f, cs, start, {k}) == Classify(cfg, f, start(cs[k]))
  {
    ClusterSumRemove(cfg, f, cs, start, {k}, k);
    assert {k} - {k} == {};
  }

  lemma ExampleClusterSum()
    ensures ClusterSum(ExampleConfig, ExampleFeature, ExampleClusters, StartOf,
                       ExampleClusters.Keys) == Tally(0, 1, 0)
  {
    var cs := ExampleClusters;
    var a, b := "clusterA", "clusterB";
    assert a != b by {
      assert a[7] != b[7];
    }
    assert cs.Keys == {a, b};
    assert cs.Keys - {a} == {b};
    ClusterSumRemove(ExampleConfig, ExampleFeature, cs, StartOf, cs.Keys, a);
    ClusterSumOne(ExampleConfig, ExampleFeature, cs, StartOf, b);
    assert Classify(ExampleConfig, ExampleFeature, StartOf(cs[a])) == Tally(0, 1, 0);
    assert Classify(ExampleConfig, ExampleFeature, StartOf(cs[b])) == Zero;
  }

  /** A single feature adds its cluster sum. */
  lemma FeatureSumOne<F, C>(cfg: ZoneConfig, fs: map<string, F>, span: F -> Interval,
                            cs: map<string, C>, start: C -> int, k: string)
    requires k in fs
    ensures FeatureSum(cfg, fs, span, cs, start, {k}) ==
            ClusterSum(cfg, span(fs[k]), cs, start, cs.Keys)
  {
    var keys: set<string> := {k};
    FeatureSumRemove(cfg, fs, span, cs, start, keys, k);
    assert keys - {k} == {};
    assert FeatureSum(cfg, fs, span, cs, start, {}) == Zero;
    AddZero(ClusterSum(cfg, span(fs[k]), cs, start, cs.Keys));
  }

  /** A single chromosome adds its tally. */
  lemma ChromSumOne<F, C>(cfg: ZoneConfig, features: NestedMap<F>, span: F -> Interval,
                          clusters: NestedMap<C>, start: C -> int, c: string)
    requires c in features
    ensures ChromSum(cfg, features, span, clusters, start, {c}) ==
            ChromTally(cfg, features, span, clusters, start, c)
  {
    var keys: set<string> := {c};
    ChromSumRemove(cfg, features, span, clusters, start, keys, c);
    assert keys - {c} == {};
    assert ChromSum(cfg, features, span, clusters, start, {}) == Zero;
    AddZero(ChromTally(cfg, features, span, clusters, start, c));
  }

  /** Feature tables of the worked example store their interval as it is. */
  function SpanOf(i: Interval): Interval { i }

  /** One feature `geneX` at `[90, 120]` on `chr1`, clusters starting at 100 and 500 on
      the same chromosome, 20 bp upstream, no downstream window and the body switched
      on: only the first cluster counts, in the body, because 100 is past the feature
      start 90. */
  lemma WorkedExample()
    ensures OverlapCounts(ExampleConfig, map["chr1" := map["geneX" := ExampleFeature]],
                          SpanOf, map["chr1" := ExampleClusters], StartOf)
            == Tally(0, 1, 0)
  {
    var fs := map["geneX" := ExampleFeature];
    var features := map["chr1" := fs];
    var clusters := map["chr1" := ExampleClusters];
    assert features.Keys == {"chr1"};
    ChromSumOne(ExampleConfig, features, SpanOf, clusters, StartOf, "chr1");
    assert fs.Keys == {"geneX"};
    assert ChromTally(ExampleConfig, features, SpanOf, clusters, StartOf, "chr1") ==
           FeatureSum(ExampleConfig, fs, SpanOf, ExampleClusters, StartOf, {"geneX"});
    FeatureSumOne(ExampleConfig, fs, SpanOf, ExampleClusters, StartOf, "geneX");
    ExampleClusterSum();
  }
}

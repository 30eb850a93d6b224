/** MQTT topic filters: matching, subsumption, and the minimisation of a subscription list
    (sections 4.7.1.2 and 4.7.1.3 of MQTT 3.1.1; the rule on topics beginning with `$` is not implemented). */
module TopicFilters {
  import opened Common

  // Levels of a topic or filter.

  function Split(s: string): (levels: seq<string>)
    ensures levels != []
  {
    if s == "" then [""]
    else
      var rest := Split(s[1..]);
      if s[0] == '/' then [""] + rest else [[s[0]] + rest[0]] + rest[1..]
  }

  function Join(levels: seq<string>): string
    requires levels != []
  {
    if |levels| == 1 then levels[0] else levels[0] + "/" + Join(levels[1..])
  }

  lemma JoinCons(level: string, rest: seq<string>)
    requires rest != []
    ensures Join([level] + rest) == level + "/" + Join(rest)
  {
    assert ([level] + rest)[1..] == rest;
  }

  lemma Associate<T>(a: seq<T>, b: seq<T>, c: seq<T>)
    ensures (a + b) + c == a + (b + c)
  {
  }

  lemma JoinLonger(c: char, levels: seq<string>)
    requires levels != []
    ensures Join([[c] + levels[0]] + levels[1..]) == [c] + Join(levels)
  {
    if |levels| > 1 {
      JoinCons([c] + levels[0], levels[1..]);
      Associate([c], levels[0], "/");
      Associate([c], levels[0] + "/", Join(levels[1..]));
    }
  }

  lemma {:induction false} JoinSplit(s: string)
    ensures Join(Split(s)) == s
  {
    if s != "" {
      JoinSplit(s[1..]);
      assert s == [s[0]] + s[1..];
      if s[0] == '/' {
        JoinCons("", Split(s[1..]));
        assert "" + "/" + s[1..] == [s[0]] + s[1..];
      } else {
        JoinLonger(s[0], Split(s[1..]));
      }
    }
  }

  lemma {:induction false} SplitSlashFree(s: string)
    requires '/' !in s
    ensures Split(s) == [s]
  {
    if s != "" {
      SplitSlashFree(s[1..]);
      assert s == [s[0]] + s[1..];
    }
  }

  lemma {:induction false} SplitFirst(level: string, rest: string)
    requires '/' !in level
    ensures Split(level + "/" + rest) == [level] + Split(rest)
  {
    var s := level + "/" + rest;
    if level == "" {
      assert s[1..] == rest;
    } else {
      assert s[1..] == level[1..] + "/" + rest;
      SplitFirst(level[1..], rest);
      assert level == [level[0]] + level[1..];
    }
  }

  lemma {:induction false} SplitJoin(levels: seq<string>)
    requires levels != [] && forall l :: l in levels ==> '/' !in l
    ensures Split(Join(levels)) == levels
  {
    if |levels| == 1 {
      SplitSlashFree(levels[0]);
    } else {
      SplitJoin(levels[1..]);
      SplitFirst(levels[0], Join(levels[1..]));
    }
  }

  lemma {:induction false} SplitLevelsSlashFree(s: string)
    ensures forall l :: l in Split(s) ==> '/' !in l
  {
    if s != "" {
      SplitLevelsSlashFree(s[1..]);
    }
  }

  // Matching.

  predicate MatchLevels(filter: seq<string>, topic: seq<string>) {
    if filter == [] then topic == []
    else if filter[0] == "#" then true
    else topic != [] && (filter[0] == "+" || filter[0] == topic[0]) && MatchLevels(filter[1..], topic[1..])
  }

  predicate Matches(filter: string, topic: string) {
    MatchLevels(Split(filter), Split(topic))
  }

  /** The loop of TopicMatcher.matches. */
  method MatchTopic(filter: string, topic: string) returns (matched: bool)
    ensures matched == Matches(filter, topic)
  {
    var f, t := Split(filter), Split(topic);
    for i := 0 to |f|
      invariant i <= |t|
      invariant Matches(filter, topic) == MatchLevels(f[i..], t[i..])
    {
      if f[i] == "#" {
        return true;
      }
      if f[i] == "+" {
        if i >= |t| {
          return false;
        }
      } else if i >= |t| || f[i] != t[i] {
        return false;
      }
      assert f[i..][1..] == f[i + 1..] && t[i..][1..] == t[i + 1..];
    }
    return |f| == |t|;
  }

  predicate LevelsAgree(filter: seq<string>, topic: seq<string>, n: nat)
    requires n <= |filter| && n <= |topic|
  {
    forall i :: 0 <= i < n ==> filter[i] != "#" && (filter[i] == "+" || filter[i] == topic[i])
  }

  /** Matching, said without a loop: the levels before the first `#` agree, and without a `#` the lengths do too. */
  lemma {:induction false} MatchMeaning(filter: seq<string>, topic: seq<string>)
    ensures MatchLevels(filter, topic) <==>
            || (|filter| == |topic| && LevelsAgree(filter, topic, |filter|))
            || (exists k :: 0 <= k < |filter| && k <= |topic| && filter[k] == "#" && LevelsAgree(filter, topic, k))
  {
    if filter != [] && filter[0] != "#" && topic != [] {
      var f, t := filter[1..], topic[1..];
      MatchMeaning(f, t);
      if MatchLevels(filter, topic) && !(|f| == |t| && LevelsAgree(f, t, |f|)) {
        var k :| 0 <= k < |f| && k <= |t| && f[k] == "#" && LevelsAgree(f, t, k);
        assert filter[k + 1] == "#" && LevelsAgree(filter, topic, k + 1);
      }
      if k :| 0 <= k < |filter| && k <= |topic| && filter[k] == "#" && LevelsAgree(filter, topic, k) {
        assert f[k - 1] == "#" && LevelsAgree(f, t, k - 1);
      }
    } else if filter != [] && filter[0] == "#" {
      assert LevelsAgree(filter, topic, 0);
    }
  }

  // Subsumption.

  predicate SubsumeLevels(broader: seq<string>, narrower: seq<string>) {
    if broader == [] then narrower == []
    else if narrower == [] then broader == ["#"]
    else if broader[0] == "#" then true
    else if narrower[0] == "#" then false
    else if broader[0] == "+" then SubsumeLevels(broader[1..], narrower[1..])
    else narrower[0] != "+" && broader[0] == narrower[0] && SubsumeLevels(broader[1..], narrower[1..])
  }

  predicate Subsumes(broader: string, narrower: string) {
    SubsumeLevels(Split(broader), Split(narrower))
  }

  /** `#` only as the last level. */
  predicate WellFormed(levels: seq<string>) {
    forall i :: 0 <= i < |levels| - 1 ==> levels[i] != "#"
  }

  predicate ValidFilter(filter: string) {
    WellFormed(Split(filter))
  }

  /** Every topic of `narrower` is a topic of `broader`. */
  ghost predicate Contains(broader: string, narrower: string) {
    forall topic: string :: Matches(narrower, topic) ==> Matches(broader, topic)
  }

  lemma {:induction false} SubsumptionSound(broader: seq<string>, narrower: seq<string>, topic: seq<string>)
    requires SubsumeLevels(broader, narrower) && MatchLevels(narrower, topic)
    ensures MatchLevels(broader, topic)
  {
    if broader != [] && narrower != [] && broader[0] != "#" {
      SubsumptionSound(broader[1..], narrower[1..], topic[1..]);
    }
  }

  /** Two level lists that are equal up to and including a `#`. */
  predicate AgreeUpToHash(a: seq<string>, b: seq<string>) {
    exists k :: 0 <= k < |a| && k < |b| && a[k] == "#" && a[..k + 1] == b[..k + 1]
  }

  /** Exactly when two filters remove each other: they are equal, or they differ only behind a `#`. */
  lemma {:induction false} MutualSubsumption(a: seq<string>, b: seq<string>)
    ensures SubsumeLevels(a, b) && SubsumeLevels(b, a) <==> a == b || AgreeUpToHash(a, b)
  {
    if a == [] || b == [] {
    } else if a[0] == "#" || b[0] == "#" {
      if a[0] == b[0] {
        assert a[..1] == b[..1];
      }
      if k :| 0 <= k < |a| && k < |b| && a[k] == "#" && a[..k + 1] == b[..k + 1] {
        assert a[..k + 1][0] == b[..k + 1][0];
      }
    } else {
      MutualSubsumption(a[1..], b[1..]);
      if a[0] == b[0] {
        assert a == [a[0]] + a[1..] && b == [b[0]] + b[1..];
        if k :| 0 <= k < |a[1..]| && k < |b[1..]| && a[1..][k] == "#" && a[1..][..k + 1] == b[1..][..k + 1] {
          assert a[..k + 2] == [a[0]] + a[1..][..k + 1] && b[..k + 2] == [b[0]] + b[1..][..k + 1];
          assert a[k + 1] == "#";
        }
      }
      if k :| 0 <= k < |a| && k < |b| && a[k] == "#" && a[..k + 1] == b[..k + 1] {
        assert a[..k + 1][0] == b[..k + 1][0] && k > 0;
        assert a[1..][..k] == a[..k + 1][1..] && b[1..][..k] == b[..k + 1][1..];
        assert a[1..][k - 1] == "#";
      }
    }
  }

  lemma AgreementIsEquality(a: seq<string>, b: seq<string>)
    requires WellFormed(a) && WellFormed(b) && AgreeUpToHash(a, b)
    ensures a == b
  {
    var k :| 0 <= k < |a| && k < |b| && a[k] == "#" && a[..k + 1] == b[..k + 1];
    assert a[..k + 1][k] == b[..k + 1][k];
    assert a == a[..k + 1] && b == b[..k + 1];
  }

  lemma SubsumptionAntisymmetric(a: string, b: string)
    requires ValidFilter(a) && ValidFilter(b)
    requires Subsumes(a, b) && Subsumes(b, a)
    ensures a == b
  {
    var x, y := Split(a), Split(b);
    MutualSubsumption(x, y);
    if AgreeUpToHash(x, y) {
      AgreementIsEquality(x, y);
    }
    JoinSplit(a);
    JoinSplit(b);
  }

  // Completeness: a filter that does not subsume another misses one of its topics.

  function Repeat(n: nat): (s: string)
    ensures |s| == n && '/' !in s
  {
    seq(n, _ => 'x')
  }

  /** A level longer than every level of the list, hence different from all of them. */
  function NovelLevel(levels: seq<string>): (s: string)
    ensures '/' !in s && |s| > 0 && forall l :: l in levels ==> |l| < |s|
  {
    if levels == [] then Repeat(1)
    else
      var rest := NovelLevel(levels[1..]);
      if |levels[0]| < |rest| then rest else Repeat(|levels[0]| + 1)
  }

  /** A topic of the filter: `novel` stands for `+` and for the levels of `#`. */
  function Sample(filter: seq<string>, novel: string): seq<string> {
    if filter == [] then []
    else if filter[0] == "#" then [novel]
    else [if filter[0] == "+" then novel else filter[0]] + Sample(filter[1..], novel)
  }

  lemma {:induction false} SampleMatches(filter: seq<string>, novel: string)
    requires '/' !in novel && forall l :: l in filter ==> '/' !in l
    ensures MatchLevels(filter, Sample(filter, novel))
    ensures filter != [] ==> Sample(filter, novel) != []
    ensures forall l :: l in Sample(filter, novel) ==> '/' !in l
  {
    if filter != [] && filter[0] != "#" {
      SampleMatches(filter[1..], novel);
      assert Sample(filter, novel)[1..] == Sample(filter[1..], novel);
    }
  }

  lemma HashOnly(filter: seq<string>)
    requires WellFormed(filter)
    ensures filter != [] && filter[0] == "#" ==> filter == ["#"]
  {
    if filter != [] && filter[0] == "#" {
      assert |filter| == 1;
    }
  }

  lemma {:induction false} MissedLevels(broader: seq<string>, narrower: seq<string>, novel: string)
    returns (topic: seq<string>)
    requires WellFormed(broader) && WellFormed(narrower) && !SubsumeLevels(broader, narrower)
    requires '/' !in novel && novel !in broader
    requires forall l :: l in narrower ==> '/' !in l
    ensures MatchLevels(narrower, topic) && !MatchLevels(broader, topic)
    ensures forall l :: l in topic ==> '/' !in l
    ensures topic == [] ==> narrower == [] || narrower == ["#"]
  {
    if broader == [] {
      topic := Sample(narrower, novel);
      SampleMatches(narrower, novel);
    } else if narrower == [] || narrower[0] == "#" {
      topic := [];
      HashOnly(broader);
      if narrower != [] {
        assert narrower == ["#"];
      }
    } else if broader[0] == "+" || broader[0] == narrower[0] {
      var rest := MissedLevels(broader[1..], narrower[1..], novel);
      topic := [if narrower[0] == "+" then novel else narrower[0]] + rest;
      assert topic[1..] == rest;
    } else {
      topic := Sample(narrower, novel);
      SampleMatches(narrower, novel);
    }
  }

  lemma MissedTopic(broader: string, narrower: string) returns (topic: string)
    requires ValidFilter(broader) && ValidFilter(narrower)
    requires !Subsumes(broader, narrower)
    requires !(broader == "+/#" && narrower == "#")
    ensures Matches(narrower, topic) && !Matches(broader, topic)
  {
    var b, n := Split(broader), Split(narrower);
    SplitLevelsSlashFree(narrower);
    var novel := NovelLevel(b);
    var levels := MissedLevels(b, n, novel);
    if levels == [] {
      JoinSplit(narrower);
      levels := MissedByHash(broader, novel);
      assert MatchLevels(n, levels);
    }
    SplitJoin(levels);
    topic := Join(levels);
  }

  /** `#` itself: a topic has at least one level, so only `#` and `+/#` match every topic. */
  lemma MissedByHash(broader: string, novel: string) returns (levels: seq<string>)
    requires ValidFilter(broader) && Split(broader)[0] != "#" && broader != "+/#"
    requires '/' !in novel && novel !in Split(broader)
    ensures levels != [] && !MatchLevels(Split(broader), levels)
    ensures forall l :: l in levels ==> '/' !in l
  {
    var b := Split(broader);
    JoinSplit(broader);
    if b[0] != "+" {
      levels := [novel];
    } else if |b| == 1 {
      levels := [novel, novel];
      assert MatchLevels(b, levels) == MatchLevels(b[1..], levels[1..]);
    } else {
      levels := [novel];
      HashOnly(b[1..]);
      assert b[1..] == ["#"] ==> b == ["+", "#"];
      assert MatchLevels(b, levels) == MatchLevels(b[1..], levels[1..]);
    }
  }

  lemma SubsumesMeansContains(broader: string, narrower: string)
    requires Subsumes(broader, narrower)
    ensures Contains(broader, narrower)
  {
    forall topic: string | Matches(narrower, topic) ensures Matches(broader, topic) {
      SubsumptionSound(Split(broader), Split(narrower), Split(topic));
    }
  }

  lemma PlusHashMatchesAll(topic: string)
    ensures Matches("+/#", topic)
  {
    SplitJoin(["+", "#"]);
    assert Join(["+", "#"]) == "+" + "/" + Join(["#"]) == "+/#";
    var t := Split(topic);
    assert ["+", "#"][1..] == ["#"];
    assert MatchLevels(["#"], t[1..]);
  }

  /** filterSubsumes decides containment of topic sets, with one exception: it does not see that `+/#` and `#`
      match the same topics. */
  lemma SubsumesExactly(broader: string, narrower: string)
    requires ValidFilter(broader) && ValidFilter(narrower)
    ensures Contains(broader, narrower) <==> Subsumes(broader, narrower) || (broader == "+/#" && narrower == "#")
  {
    if Subsumes(broader, narrower) {
      SubsumesMeansContains(broader, narrower);
    } else if broader == "+/#" && narrower == "#" {
      forall topic: string ensures Matches(broader, topic) {
        PlusHashMatchesAll(topic);
      }
    } else {
      var topic := MissedTopic(broader, narrower);
    }
  }

  // Minimisation.

  function Unique(filters: seq<string>, seen: seq<string>): seq<string> {
    if filters == [] then seen
    else if filters[0] == "" || filters[0] in seen then Unique(filters[1..], seen)
    else Unique(filters[1..], seen + [filters[0]])
  }

  predicate Redundant(unique: seq<string>, index: nat)
    requires index < |unique|
  {
    exists other :: 0 <= other < |unique| && other != index && Subsumes(unique[other], unique[index])
  }

  function Survivors(unique: seq<string>, from: nat): seq<string>
    requires from <= |unique|
    decreases |unique| - from
  {
    if from == |unique| then []
    else (if Redundant(unique, from) then [] else [unique[from]]) + Survivors(unique, from + 1)
  }

  function Minimize(filters: seq<string>): seq<string> {
    Survivors(Unique(filters, []), 0)
  }

  /** The `some` call of the filter predicate. */
  method SomeOtherSubsumes(unique: seq<string>, index: nat) returns (redundant: bool)
    requires index < |unique|
    ensures redundant == Redundant(unique, index)
  {
    for other := 0 to |unique|
      invariant forall k :: 0 <= k < other && k != index ==> !Subsumes(unique[k], unique[index])
    {
      if other != index && Subsumes(unique[other], unique[index]) {
        return true;
      }
    }
    return false;
  }

  /** The first loop: the distinct non-empty filters, in order. */
  method CollectUnique(filters: seq<string>) returns (unique: seq<string>)
    ensures unique == Unique(filters, [])
  {
    unique := [];
    for i := 0 to |filters|
      invariant Unique(filters, []) == Unique(filters[i..], unique)
    {
      assert filters[i..][1..] == filters[i + 1..];
      if filters[i] != "" && filters[i] !in unique {
        unique := unique + [filters[i]];
      }
    }
  }

  /** minimizeSubscriptionFilters: collect the distinct non-empty filters, then keep those no other one subsumes. */
  method MinimizeFilters(filters: seq<string>) returns (result: seq<string>)
    ensures result == Minimize(filters)
  {
    var unique := CollectUnique(filters);
    result := [];
    for index := 0 to |unique|
      invariant Survivors(unique, 0) == result + Survivors(unique, index)
    {
      var redundant := SomeOtherSubsumes(unique, index);
      if !redundant {
        result := result + [unique[index]];
      }
    }
  }

  ghost predicate Distinct(s: seq<string>) {
    forall i, j :: 0 <= i < j < |s| ==> s[i] != s[j]
  }

  lemma {:induction false} UniqueMeaning(filters: seq<string>, seen: seq<string>)
    requires Distinct(seen) && "" !in seen
    ensures Distinct(Unique(filters, seen))
    ensures forall f :: f in Unique(filters, seen) <==> f in seen || (f in filters && f != "")
  {
    if filters != [] {
      if filters[0] == "" || filters[0] in seen {
        UniqueMeaning(filters[1..], seen);
      } else {
        UniqueMeaning(filters[1..], seen + [filters[0]]);
      }
      assert filters == [filters[0]] + filters[1..];
    }
  }

  lemma {:induction false} SurvivorsMeaning(unique: seq<string>, from: nat)
    requires Distinct(unique) && from <= |unique|
    ensures Distinct(Survivors(unique, from))
    ensures forall f :: f in Survivors(unique, from) <==>
              exists i :: from <= i < |unique| && unique[i] == f && !Redundant(unique, i)
    decreases |unique| - from
  {
    if from < |unique| {
      SurvivorsMeaning(unique, from + 1);
      assert unique[from] !in Survivors(unique, from + 1);
    }
  }

  /** A non-empty filter of the list that no other one subsumes. */
  predicate IsTopmost(filters: seq<string>, f: string) {
    f != "" && f in filters && !(exists g :: g in filters && g != "" && g != f && Subsumes(g, f))
  }

  /** What is kept: the non-empty inputs that no other input subsumes. */
  lemma MinimizeMeaning(filters: seq<string>)
    ensures Distinct(Minimize(filters))
    ensures forall f :: f in Minimize(filters) <==> IsTopmost(filters, f)
  {
    var u := Unique(filters, []);
    UniqueMeaning(filters, []);
    SurvivorsMeaning(u, 0);
    forall f | f in u
      ensures f in Survivors(u, 0) <==> !(exists g :: g in filters && g != "" && g != f && Subsumes(g, f))
    {
      var i :| 0 <= i < |u| && u[i] == f;
      if Redundant(u, i) {
        var other :| 0 <= other < |u| && other != i && Subsumes(u[other], u[i]);
        assert u[other] in u;
      }
      if g :| g in filters && g != "" && g != f && Subsumes(g, f) {
        assert Redundant(u, i) by {
          assert g in u;
          var other :| 0 <= other < |u| && u[other] == g;
        }
      }
    }
  }

  lemma SmallerSubset(a: set<string>, b: set<string>)
    requires a < b
    ensures |a| < |b|
  {
    var x :| x in b && x !in a;
    assert a <= b - {x};
    SubsetSize(a, b - {x});
  }

  predicate SomeMatch(filters: seq<string>, topic: string) {
    exists f :: f in filters && f != "" && Matches(f, topic)
  }

  /** No kept filter is contained in another kept one, so the list cannot be shortened by dropping one for another. */
  lemma MinimizeAntichain(filters: seq<string>, f: string, g: string)
    requires forall h :: h in filters && h != "" ==> ValidFilter(h)
    requires f in Minimize(filters) && g in Minimize(filters) && f != g
    ensures !Contains(f, g)
  {
    MinimizeMeaning(filters);
    SubsumesExactly(f, g);
    HashSubsumesAll(f);
  }

  lemma HashSubsumesAll(f: string)
    ensures Subsumes("#", f)
  {
    SplitSlashFree("#");
  }

  lemma {:induction false} SomeTopic(filter: string) returns (topic: string)
    ensures Matches(filter, topic)
  {
    SplitLevelsSlashFree(filter);
    var levels := Sample(Split(filter), "x");
    SampleMatches(Split(filter), "x");
    SplitJoin(levels);
    topic := Join(levels);
  }

  // What minimising a list of any filters, also ill-formed ones, does to its meaning.

  /** The levels up to and including the first `#`; what follows it never matters to a match. */
  function Trunk(levels: seq<string>): (r: seq<string>)
    ensures levels != [] ==> r != []
  {
    if levels == [] then []
    else if levels[0] == "#" then ["#"]
    else [levels[0]] + Trunk(levels[1..])
  }

  lemma {:induction false} TrunkIsWellFormed(levels: seq<string>)
    ensures WellFormed(Trunk(levels))
    ensures forall l :: l in Trunk(levels) ==> l in levels
  {
    if levels != [] && levels[0] != "#" {
      TrunkIsWellFormed(levels[1..]);
      assert Trunk(levels)[1..] == Trunk(levels[1..]);
    }
  }

  lemma {:induction false} TrunkMatches(levels: seq<string>, topic: seq<string>)
    ensures MatchLevels(Trunk(levels), topic) == MatchLevels(levels, topic)
  {
    if levels != [] && levels[0] != "#" && topic != [] {
      TrunkMatches(levels[1..], topic[1..]);
      assert Trunk(levels)[1..] == Trunk(levels[1..]);
    }
  }

  lemma {:induction false} TrunkSubsumes(a: seq<string>, b: seq<string>)
    requires SubsumeLevels(a, b)
    ensures SubsumeLevels(Trunk(a), Trunk(b))
  {
    if a != [] && b != [] && a[0] != "#" {
      TrunkSubsumes(a[1..], b[1..]);
      assert Trunk(a)[1..] == Trunk(a[1..]) && Trunk(b)[1..] == Trunk(b[1..]);
    }
  }

  /** Different filters with the same trunk agree up to a `#`. */
  lemma {:induction false} SameTrunk(a: seq<string>, b: seq<string>)
    requires Trunk(a) == Trunk(b) && a != b
    ensures AgreeUpToHash(a, b)
  {
    assert Trunk(a)[0] == a[0] && Trunk(b)[0] == b[0];
    if a[0] == "#" {
      assert a[..1] == b[..1];
    } else {
      assert Trunk(a)[1..] == Trunk(a[1..]) && Trunk(b)[1..] == Trunk(b[1..]);
      assert a == [a[0]] + a[1..] && b == [b[0]] + b[1..];
      SameTrunk(a[1..], b[1..]);
      var k :| 0 <= k < |a[1..]| && k < |b[1..]| && a[1..][k] == "#" && a[1..][..k + 1] == b[1..][..k + 1];
      assert a[..k + 2] == [a[0]] + a[1..][..k + 1] && b[..k + 2] == [b[0]] + b[1..][..k + 1];
      assert a[k + 1] == "#";
    }
  }

  function Stem(filter: string): string {
    Join(Trunk(Split(filter)))
  }

  lemma StemMeans(filter: string)
    ensures ValidFilter(Stem(filter)) && Split(Stem(filter)) == Trunk(Split(filter))
    ensures Contains(Stem(filter), filter) && Contains(filter, Stem(filter))
  {
    TrunkIsWellFormed(Split(filter));
    SplitLevelsSlashFree(filter);
    SplitJoin(Trunk(Split(filter)));
    forall topic: string ensures Matches(Stem(filter), topic) == Matches(filter, topic) {
      TrunkMatches(Split(filter), Split(topic));
    }
  }

  predicate Twins(f: string, g: string) {
    f != g && AgreeUpToHash(Split(f), Split(g))
  }

  predicate HasTwin(filters: seq<string>, f: string) {
    exists g :: g in filters && g != "" && Twins(f, g)
  }

  /** A filter that is subsumed by another one with the same meaning is its twin, or is `+/#` below `#`. */
  lemma SameMeaning(f: string, h: string)
    requires Subsumes(h, f) && Contains(f, h) && h != f
    ensures Twins(f, h) || (Stem(f) == "+/#" && Stem(h) == "#")
  {
    StemMeans(f);
    StemMeans(h);
    TrunkSubsumes(Split(h), Split(f));
    SubsumesExactly(Stem(f), Stem(h));
    if Subsumes(Stem(f), Stem(h)) {
      SubsumptionAntisymmetric(Stem(f), Stem(h));
      JoinSplit(f);
      JoinSplit(h);
      SameTrunk(Split(f), Split(h));
    }
  }

  ghost function Above(filters: seq<string>, f: string): set<string> {
    set g | g in filters && g != "" && Contains(g, f)
  }

  /** Climbing from a filter to one that subsumes it ends in a kept filter, or in one that has a twin. */
  lemma {:induction false} Climb(filters: seq<string>, f: string) returns (g: string)
    requires f in filters && f != ""
    ensures g in filters && g != "" && Contains(g, f) && (g in Minimize(filters) || HasTwin(filters, g))
    decreases |Above(filters, f)|, if Stem(f) == "+/#" then 1 else 0
  {
    MinimizeMeaning(filters);
    if f in Minimize(filters) || HasTwin(filters, f) {
      g := f;
    } else {
      var h :| h in filters && h != "" && h != f && Subsumes(h, f);
      SubsumesMeansContains(h, f);
      AboveShrinks(filters, f, h);
      g := Climb(filters, h);
    }
  }

  lemma AboveShrinks(filters: seq<string>, f: string, h: string)
    requires f in filters && f != "" && !HasTwin(filters, f)
    requires h in filters && h != "" && h != f && Subsumes(h, f) && Contains(h, f)
    ensures |Above(filters, h)| < |Above(filters, f)|
            || (|Above(filters, h)| == |Above(filters, f)| && Stem(f) == "+/#" && Stem(h) == "#")
  {
    assert Above(filters, h) <= Above(filters, f);
    if Contains(f, h) {
      SameMeaning(f, h);
      SubsetSize(Above(filters, h), Above(filters, f));
    } else {
      assert f in Above(filters, f) && f !in Above(filters, h);
      SmallerSubset(Above(filters, h), Above(filters, f));
    }
  }

  ghost predicate MeaningKept(filters: seq<string>) {
    forall topic: string :: SomeMatch(filters, topic) ==> SomeMatch(Minimize(filters), topic)
  }

  /** Filters of any form: without twins, the minimised list admits exactly the topics of the original one. */
  lemma NoTwinsKeepMeaning(filters: seq<string>, topic: string)
    requires forall f :: f in filters && f != "" ==> !HasTwin(filters, f)
    ensures SomeMatch(filters, topic) <==> SomeMatch(Minimize(filters), topic)
  {
    MinimizeMeaning(filters);
    if f :| f in filters && f != "" && Matches(f, topic) {
      var g := Climb(filters, f);
      assert g in Minimize(filters) && Matches(g, topic);
    }
  }

  /** Well-formed filters have no twins: the minimised list admits exactly the topics of the original one. */
  lemma MinimizeKeepsMeaning(filters: seq<string>, topic: string)
    requires forall f :: f in filters && f != "" ==> ValidFilter(f)
    ensures SomeMatch(filters, topic) <==> SomeMatch(Minimize(filters), topic)
  {
    forall f | f in filters && f != "" ensures !HasTwin(filters, f) {
      if g :| g in filters && g != "" && Twins(f, g) {
        AgreementIsEquality(Split(f), Split(g));
        JoinSplit(f);
        JoinSplit(g);
      }
    }
    NoTwinsKeepMeaning(filters, topic);
  }

  // The exact condition: finitely many topics decide.

  function Repeated(level: string, n: nat): (r: seq<string>)
    ensures |r| == n && forall i :: 0 <= i < n ==> r[i] == level
  {
    seq(n, _ => level)
  }

  /** A topic of the filter: `novel` stands for each `+`, and n times for the `#`. */
  function Probe(filter: seq<string>, novel: string, n: nat): seq<string> {
    if filter == [] then []
    else if filter[0] == "#" then Repeated(novel, n)
    else [if filter[0] == "+" then novel else filter[0]] + Probe(filter[1..], novel, n)
  }

  lemma {:induction false} ProbeMatches(filter: seq<string>, novel: string, n: nat)
    requires '/' !in novel && forall l :: l in filter ==> '/' !in l
    ensures MatchLevels(filter, Probe(filter, novel, n))
    ensures forall l :: l in Probe(filter, novel, n) ==> '/' !in l
  {
    if filter != [] && filter[0] != "#" {
      ProbeMatches(filter[1..], novel, n);
      assert Probe(filter, novel, n)[1..] == Probe(filter[1..], novel, n);
    }
  }

  /** A filter that matches levels which it does not name matches any other levels in their place; when it is shorter
      than they are, it also matches more of them. */
  lemma {:induction false} NovelStandsForAny(g: seq<string>, novel: string, n: nat, topic: seq<string>)
    requires novel !in g && MatchLevels(g, Repeated(novel, n))
    requires |topic| == n || (|topic| > n > |g|)
    ensures MatchLevels(g, topic)
  {
    if g != [] && g[0] != "#" {
      assert Repeated(novel, n)[1..] == Repeated(novel, n - 1);
      NovelStandsForAny(g[1..], novel, n - 1, topic[1..]);
    }
  }

  /** Whatever matches the probe of the right length matches the topic. */
  lemma {:induction false} ProbeStands(f: seq<string>, novel: string, n: nat, g: seq<string>, topic: seq<string>)
    requires novel !in g && MatchLevels(f, topic) && MatchLevels(g, Probe(f, novel, n))
    requires |topic| == |Probe(f, novel, n)| || (|topic| > |Probe(f, novel, n)| && n > |g|)
    ensures MatchLevels(g, topic)
  {
    if f != [] && f[0] == "#" {
      NovelStandsForAny(g, novel, n, topic);
    } else if f != [] && g != [] && g[0] != "#" {
      assert Probe(f, novel, n)[1..] == Probe(f[1..], novel, n);
      ProbeStands(f[1..], novel, n, g[1..], topic[1..]);
    }
  }

  /** The probe that stands for a topic has its length, or the greatest one. */
  lemma {:induction false} ProbeFor(f: seq<string>, novel: string, most: nat, topic: seq<string>) returns (n: nat)
    requires MatchLevels(f, topic)
    ensures n <= most
    ensures |topic| == |Probe(f, novel, n)| || (|topic| > |Probe(f, novel, n)| && n == most)
  {
    if f == [] {
      n := 0;
    } else if f[0] == "#" {
      n := if |topic| <= most then |topic| else most;
    } else {
      n := ProbeFor(f[1..], novel, most, topic[1..]);
    }
  }

  function AllLevels(filters: seq<string>): seq<string> {
    if filters == [] then [] else Split(filters[0]) + AllLevels(filters[1..])
  }

  lemma {:induction false} LevelsOfOne(filters: seq<string>, f: string)
    requires f in filters
    ensures |Split(f)| <= |AllLevels(filters)| && forall l :: l in Split(f) ==> l in AllLevels(filters)
  {
    if f != filters[0] {
      LevelsOfOne(filters[1..], f);
    }
  }

  /** More levels than any of the filters has. */
  function Most(filters: seq<string>): nat {
    |AllLevels(filters)| + 1
  }

  function ProbeOf(filters: seq<string>, f: string, n: nat): seq<string> {
    Probe(Split(f), NovelLevel(AllLevels(filters)), n)
  }

  predicate TopmostMatch(filters: seq<string>, topic: string) {
    exists f :: f in filters && IsTopmost(filters, f) && Matches(f, topic)
  }

  /** Every probe of a filter with a twin is matched by a filter of the list that no other one subsumes. */
  predicate ProbesCovered(filters: seq<string>) {
    forall f, n ::
      f in filters && f != "" && HasTwin(filters, f) && 0 <= n <= Most(filters) && ProbeOf(filters, f, n) != []
      ==> TopmostMatch(filters, Join(ProbeOf(filters, f, n)))
  }

  lemma KeptMatch(filters: seq<string>, topic: string)
    ensures TopmostMatch(filters, topic) <==> SomeMatch(Minimize(filters), topic)
  {
    MinimizeMeaning(filters);
    if f :| f in Minimize(filters) && f != "" && Matches(f, topic) {
      assert IsTopmost(filters, f);
    }
    if f :| f in filters && IsTopmost(filters, f) && Matches(f, topic) {
      assert f in Minimize(filters);
    }
  }

  lemma ProbeIsATopic(filters: seq<string>, f: string, n: nat)
    requires ProbeOf(filters, f, n) != []
    ensures Split(Join(ProbeOf(filters, f, n))) == ProbeOf(filters, f, n)
    ensures Matches(f, Join(ProbeOf(filters, f, n)))
  {
    SplitLevelsSlashFree(f);
    ProbeMatches(Split(f), NovelLevel(AllLevels(filters)), n);
    SplitJoin(ProbeOf(filters, f, n));
  }

  lemma TwinCovered(filters: seq<string>, f: string, topic: string)
    requires ProbesCovered(filters) && f in filters && f != "" && HasTwin(filters, f) && Matches(f, topic)
    ensures SomeMatch(Minimize(filters), topic)
  {
    var novel := NovelLevel(AllLevels(filters));
    var n := ProbeFor(Split(f), novel, Most(filters), Split(topic));
    var probe := ProbeOf(filters, f, n);
    assert probe != [];
    ProbeIsATopic(filters, f, n);
    KeptMatch(filters, Join(probe));
    var g :| g in Minimize(filters) && g != "" && Matches(g, Join(probe));
    MinimizeMeaning(filters);
    LevelsOfOne(filters, g);
    ProbeStands(Split(f), novel, n, Split(g), Split(topic));
  }

  /** Any list of filters: the meaning is kept if and only if finitely many topics, those that stand for the topics of
      filters with a twin, match a filter of the list that no other one subsumes. */
  lemma MeaningExactly(filters: seq<string>)
    ensures MeaningKept(filters) <==> ProbesCovered(filters)
  {
    if MeaningKept(filters) {
      forall f, n | f in filters && f != "" && HasTwin(filters, f) && 0 <= n <= Most(filters)
                    && ProbeOf(filters, f, n) != []
        ensures TopmostMatch(filters, Join(ProbeOf(filters, f, n)))
      {
        ProbeIsATopic(filters, f, n);
        KeptMatch(filters, Join(ProbeOf(filters, f, n)));
        assert SomeMatch(filters, Join(ProbeOf(filters, f, n)));
      }
    }
    if ProbesCovered(filters) {
      forall topic: string | SomeMatch(filters, topic) ensures SomeMatch(Minimize(filters), topic) {
        var f :| f in filters && f != "" && Matches(f, topic);
        var g := Climb(filters, f);
        if g in Minimize(filters) {
          assert Matches(g, topic);
        } else {
          TwinCovered(filters, g, topic);
        }
      }
    }
  }

  // Two filters.

  /** Any two filters, well formed or not: the meaning is lost exactly when they differ only behind a `#`, since
      then each removes the other. */
  lemma PairMeaning(f: string, g: string)
    requires f != g && f != "" && g != ""
    ensures MeaningKept([f, g]) <==> !AgreeUpToHash(Split(f), Split(g))
  {
    var filters := [f, g];
    assert f in filters && g in filters;
    if AgreeUpToHash(Split(f), Split(g)) {
      MinimizeMeaning(filters);
      MutualSubsumption(Split(f), Split(g));
      var topic := SomeTopic(f);
      assert SomeMatch(filters, topic) && !SomeMatch(Minimize(filters), topic);
    } else {
      AgreeUpToHashSymmetric(Split(g), Split(f));
      forall topic: string | SomeMatch(filters, topic) ensures SomeMatch(Minimize(filters), topic) {
        NoTwinsKeepMeaning(filters, topic);
      }
    }
  }

  lemma AgreeUpToHashSymmetric(a: seq<string>, b: seq<string>)
    ensures AgreeUpToHash(a, b) ==> AgreeUpToHash(b, a)
  {
    if k :| 0 <= k < |a| && k < |b| && a[k] == "#" && a[..k + 1] == b[..k + 1] {
      assert a[..k + 1][k] == b[..k + 1][k];
    }
  }

  /** Two filters that remove each other. */
  lemma IllFormedPair()
    ensures !MeaningKept(["#/a", "#/b"])
  {
    var f, g := ["#", "a"], ["#", "b"];
    SplitJoin(f);
    SplitJoin(g);
    assert Join(f) == "#" + "/" + Join(f[1..]) == "#/a";
    assert Join(g) == "#" + "/" + Join(g[1..]) == "#/b";
    assert f[..1] == g[..1];
    assert "#/a"[2] != "#/b"[2];
    PairMeaning("#/a", "#/b");
  }

  /** A `#` that no other filter subsumes is kept, and covers every topic. */
  lemma HashCovers(filters: seq<string>)
    requires "#" in filters && forall f :: f in filters && f != "#" ==> Split(f)[0] != "#"
    ensures MeaningKept(filters)
  {
    MinimizeMeaning(filters);
    SplitSlashFree("#");
    forall topic: string ensures SomeMatch(Minimize(filters), topic) {
      assert Matches("#", topic);
    }
  }

  /** Lists of three can keep their meaning in spite of twins: these remove each other, and `#` covers them. */
  lemma CoveredTwins(f: string, g: string)
    requires f == Join(["a", "#", "x"]) && g == Join(["a", "#", "y"])
    ensures Twins(f, g) && MeaningKept([f, g, "#"])
  {
    var x, y := ["a", "#", "x"], ["a", "#", "y"];
    SplitJoin(x);
    SplitJoin(y);
    assert x[2] != y[2] && x[..2] == y[..2] && x[1] == "#";
    HashCovers([f, g, "#"]);
  }
}

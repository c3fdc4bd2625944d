/** Features of one package: `expand_features` and `active_dependencies`. */
module Features {
  import opened Ir

  datatype Dependency = Dependency(package: string, version: string, checksum: string, optional: bool,
      default_features: bool, features: set<string>)

  datatype Manifest = Manifest(name: string, version: string, features: map<string, seq<string>>,
      dependencies: map<string, Dependency>)

  /** What an entry of a feature asks for. */
  datatype Entry = OptionalDep(alias: string) | Forward(alias: string, feature: string) | Plain(feature: string)

  function IndexOf(s: string, c: char): (i: nat)
    ensures i <= |s| && (i < |s| ==> s[i] == c) && forall j :: 0 <= j < i ==> s[j] != c
  {
    if s == "" || s[0] == c then 0 else 1 + IndexOf(s[1..], c)
  }

  function ParseEntry(e: string): Entry {
    if |e| >= 4 && e[..4] == "dep:" then OptionalDep(e[4..])
    else if IndexOf(e, '/') < |e| then Forward(e[..IndexOf(e, '/')], e[IndexOf(e, '/') + 1..])
    else Plain(e)
  }

  predicate EntryOk(m: Manifest, e: string) {
    match ParseEntry(e)
    case OptionalDep(alias) => alias in m.dependencies && m.dependencies[alias].optional
    case Forward(alias, feature) => alias != "" && feature != "" && alias in m.dependencies
    case Plain(feature) => feature in m.features
  }

  /** The feature is defined, and so is everything it mentions. */
  predicate FeatureOk(m: Manifest, f: string) {
    f in m.features && forall e :: e in m.features[f] ==> EntryOk(m, e)
  }

  ghost predicate AllOk(m: Manifest, s: set<string>) {
    forall f :: f in s ==> FeatureOk(m, f)
  }

  /** Feature `f` enables feature `g` of the same package. */
  predicate Enables(m: Manifest, f: string, g: string) {
    f in m.features && exists e :: e in m.features[f] && ParseEntry(e) == Plain(g)
  }

  ghost predicate Closed(m: Manifest, s: set<string>) {
    forall f, g :: f in s && Enables(m, f, g) ==> g in s
  }

  function Wanted(m: Manifest, requested: set<string>, defaults: bool): set<string> {
    if defaults && "default" in m.features then requested + {"default"} else requested
  }

  /** The least set of features that contains `wanted` and everything its members enable, all of it defined. */
  ghost predicate IsExpansion(m: Manifest, wanted: set<string>, s: set<string>) {
    && wanted <= s && Closed(m, s) && AllOk(m, s)
    && forall t: set<string> :: wanted <= t && Closed(m, t) ==> s <= t
  }

  // ----- expanding -----

  method Listed(s: set<string>) returns (r: seq<string>)
    ensures forall x :: x in r <==> x in s
  {
    r := [];
    var rest := s;
    while rest != {}
      invariant forall x :: x in s <==> x in r || x in rest
      decreases |rest|
    {
      var x :| x in rest;
      rest := rest - {x};
      r := r + [x];
    }
  }

  /** Features outside the queue are checked, and what they enable is selected. */
  ghost predicate Expanding(m: Manifest, wanted: set<string>, selected: set<string>, queue: seq<string>) {
    && wanted <= selected && (forall f :: f in queue ==> f in selected)
    && (forall f :: f in selected && f !in queue ==> FeatureOk(m, f) && forall g :: Enables(m, f, g) ==> g in selected)
    && (forall t: set<string> :: wanted <= t && Closed(m, t) ==> selected <= t)
  }

  /** `expand_features`; `None` if some feature that would have to be selected is not well defined. */
  method ExpandFeatures(m: Manifest, requested: set<string>, defaults: bool) returns (r: Option<set<string>>)
    ensures r.Some? ==> IsExpansion(m, Wanted(m, requested, defaults), r.value)
    ensures r.None? ==> forall t: set<string> :: Wanted(m, requested, defaults) <= t && Closed(m, t) ==> !AllOk(m, t)
  {
    ghost var wanted := Wanted(m, requested, defaults);
    var selected := Wanted(m, requested, defaults);
    var queue := Listed(selected);
    while queue != []
      invariant Expanding(m, wanted, selected, queue)
      decreases |m.features.Keys - selected|, |queue|
    {
      var feature := queue[0];
      if !FeatureOk(m, feature) {
        return None;
      }
      var more, wider := SelectEnabled(m, feature, selected);
      Expanded(m, wanted, queue, selected, more);
      Progress(m, selected, more);
      hide Expanding;
      hide FeatureOk;
      hide Enables;
      selected := wider;
      queue := queue[1..] + more;
    }
    return Some(selected);
  }

  function Members(s: seq<string>): set<string> {
    set x | x in s
  }

  /** Select everything `feature` enables; `more` is what was not selected before. */
  method SelectEnabled(m: Manifest, feature: string, before: set<string>)
      returns (more: seq<string>, selected: set<string>)
    requires FeatureOk(m, feature)
    ensures selected == before + Members(more) && Members(more) !! before
    ensures forall g :: g in more ==> Enables(m, feature, g) && g in m.features
    ensures forall g :: Enables(m, feature, g) ==> g in selected
  {
    more, selected := [], before;
    var entries := m.features[feature];
    for k := 0 to |entries|
      invariant selected == before + Members(more) && Members(more) !! before
      invariant forall g :: g in more ==> Enables(m, feature, g) && g in m.features
      invariant forall j :: 0 <= j < k && ParseEntry(entries[j]).Plain? ==> ParseEntry(entries[j]).feature in selected
    {
      var e := entries[k];
      assert e in entries && EntryOk(m, e);
      match ParseEntry(e) {
        case Plain(g) =>
          if g !in selected {
            assert Members(more + [g]) == Members(more) + {g};
            more, selected := more + [g], selected + {g};
          }
        case _ =>
      }
    }
    forall g | Enables(m, feature, g)
      ensures g in selected
    {
      var e :| e in entries && ParseEntry(e) == Plain(g);
      var k :| 0 <= k < |entries| && entries[k] == e;
      assert ParseEntry(entries[k]).Plain?;
    }
  }

  lemma Expanded(m: Manifest, wanted: set<string>, queue: seq<string>, before: set<string>, more: seq<string>)
    requires queue != [] && Expanding(m, wanted, before, queue) && FeatureOk(m, queue[0])
    requires forall g :: g in more ==> Enables(m, queue[0], g)
    requires forall g :: Enables(m, queue[0], g) ==> g in before + Members(more)
    ensures Expanding(m, wanted, before + Members(more), queue[1..] + more)
  {
    hide Enables;
    hide FeatureOk;
    assert queue == [queue[0]] + queue[1..];
    assert queue[0] in queue;
  }

  lemma Progress(m: Manifest, before: set<string>, more: seq<string>)
    requires Members(more) !! before && Members(more) <= m.features.Keys
    ensures more == [] ==> before + Members(more) == before
    ensures more != [] ==> |m.features.Keys - (before + Members(more))| < |m.features.Keys - before|
  {
    var outside := m.features.Keys - (before + Members(more));
    assert m.features.Keys - before == outside + Members(more);
    assert outside !! Members(more);
    if more != [] {
      assert more[0] in Members(more);
    }
  }

  // ----- active dependencies -----

  /** Feature `f` switches the optional dependency `alias` on. */
  predicate SwitchesOn(m: Manifest, f: string, alias: string) {
    f in m.features && exists e :: e in m.features[f] && NamesAlias(e, alias)
  }

  predicate NamesAlias(e: string, a: string) {
    match ParseEntry(e)
    case OptionalDep(alias) => alias == a
    case Forward(alias, _) => alias == a
    case Plain(_) => false
  }

  /** Feature `f` forwards feature `c` to the dependency `alias`. */
  predicate Forwards(m: Manifest, f: string, alias: string, c: string) {
    f in m.features && exists e :: e in m.features[f] && ParseEntry(e) == Forward(alias, c)
  }

  ghost predicate IsActive(m: Manifest, s: set<string>, alias: string) {
    alias in m.dependencies && (m.dependencies[alias].optional ==> exists f :: f in s && SwitchesOn(m, f, alias))
  }

  ghost predicate ForwardedTo(m: Manifest, s: set<string>, alias: string, c: string) {
    exists f :: f in s && Forwards(m, f, alias, c)
  }

  /** Exactly the active dependencies, each with exactly the features forwarded to it. */
  ghost predicate ActiveRight(m: Manifest, s: set<string>, active: map<string, set<string>>) {
    && (forall a :: a in active <==> IsActive(m, s, a))
    && (forall a, c :: a in active ==> (c in active[a] <==> ForwardedTo(m, s, a, c)))
  }

  /** More features never switch a dependency off or forward less. */
  lemma ActiveGrows(m: Manifest, s: set<string>, t: set<string>, alias: string)
    requires s <= t
    ensures IsActive(m, s, alias) ==> IsActive(m, t, alias)
    ensures forall c :: ForwardedTo(m, s, alias, c) ==> ForwardedTo(m, t, alias, c)
  {
    hide SwitchesOn;
    hide Forwards;
  }

  function Lookup(forwarded: map<string, set<string>>, a: string): set<string> {
    if a in forwarded then forwarded[a] else {}
  }

  predicate NamedBelow(entries: seq<string>, n: nat, a: string)
    requires n <= |entries|
  {
    exists k :: 0 <= k < n && NamesAlias(entries[k], a)
  }

  predicate ForwardedBelow(entries: seq<string>, n: nat, a: string, c: string)
    requires n <= |entries|
  {
    exists k :: 0 <= k < n && ParseEntry(entries[k]) == Forward(a, c)
  }

  ghost predicate ScannedEntries(entries: seq<string>, n: nat, enabled: set<string>,
      forwarded: map<string, set<string>>, enabled0: set<string>, forwarded0: map<string, set<string>>)
    requires n <= |entries|
  {
    && (forall a :: a in enabled <==> (a in enabled0 || NamedBelow(entries, n, a)))
    && (forall a, c :: c in Lookup(forwarded, a) <==> (c in Lookup(forwarded0, a) || ForwardedBelow(entries, n, a, c)))
  }

  method ScanEntries(entries: seq<string>, enabled0: set<string>, forwarded0: map<string, set<string>>)
      returns (enabled: set<string>, forwarded: map<string, set<string>>)
    ensures ScannedEntries(entries, |entries|, enabled, forwarded, enabled0, forwarded0)
  {
    enabled, forwarded := enabled0, forwarded0;
    for k := 0 to |entries|
      invariant ScannedEntries(entries, k, enabled, forwarded, enabled0, forwarded0)
    {
      forall a
        ensures NamedBelow(entries, k + 1, a) <==> NamedBelow(entries, k, a) || NamesAlias(entries[k], a)
      {}
      forall a, c
        ensures ForwardedBelow(entries, k + 1, a, c) <==>
          ForwardedBelow(entries, k, a, c) || ParseEntry(entries[k]) == Forward(a, c)
      {}
      hide ParseEntry;
      hide NamedBelow;
      hide ForwardedBelow;
      hide NamesAlias;
      hide Lookup;
      enabled, forwarded := ScanEntry(entries[k], enabled, forwarded);
    }
  }

  method ScanEntry(e: string, enabled0: set<string>, forwarded0: map<string, set<string>>)
      returns (enabled: set<string>, forwarded: map<string, set<string>>)
    ensures forall a :: a in enabled <==> (a in enabled0 || NamesAlias(e, a))
    ensures forall a, c :: c in Lookup(forwarded, a) <==> (c in Lookup(forwarded0, a) || ParseEntry(e) == Forward(a, c))
  {
    hide ParseEntry;
    enabled, forwarded := enabled0, forwarded0;
    match ParseEntry(e) {
      case OptionalDep(alias) =>
        enabled := enabled + {alias};
      case Forward(alias, c) =>
        enabled := enabled + {alias};
        forwarded := forwarded[alias := Lookup(forwarded, alias) + {c}];
      case Plain(_) =>
    }
  }

  ghost predicate ScannedFeatures(m: Manifest, s: set<string>, rest: set<string>, enabled: set<string>,
      forwarded: map<string, set<string>>)
  {
    && (forall a :: a in enabled <==> exists f :: f in s && f !in rest && SwitchesOn(m, f, a))
    && (forall a, c :: c in Lookup(forwarded, a) <==> exists f :: f in s && f !in rest && Forwards(m, f, a, c))
  }

  /** `active_dependencies` */
  method ActiveDependencies(m: Manifest, s: set<string>) returns (active: map<string, set<string>>)
    ensures ActiveRight(m, s, active)
  {
    var enabled: set<string>, forwarded: map<string, set<string>> := {}, map[];
    var rest := s;
    while rest != {}
      invariant rest <= s && ScannedFeatures(m, s, rest, enabled, forwarded)
      decreases |rest|
    {
      var f :| f in rest;
      if f in m.features {
        var enabled', forwarded' := ScanEntries(m.features[f], enabled, forwarded);
        ScannedOne(m, s, rest, f, enabled, forwarded, enabled', forwarded');
        hide ScannedFeatures;
        enabled, forwarded := enabled', forwarded';
      } else {
        SkippedOne(m, s, rest, f, enabled, forwarded);
      }
      rest := rest - {f};
    }
    active := map a | a in m.dependencies && (m.dependencies[a].optional ==> a in enabled) :: Lookup(forwarded, a);
    hide SwitchesOn;
    hide Forwards;
    hide Lookup;
  }

  lemma SkippedOne(m: Manifest, s: set<string>, rest: set<string>, f: string, enabled: set<string>,
      forwarded: map<string, set<string>>)
    requires ScannedFeatures(m, s, rest, enabled, forwarded) && f in rest && f !in m.features
    ensures ScannedFeatures(m, s, rest - {f}, enabled, forwarded)
  {
    hide Lookup;
    forall a, c
      ensures !SwitchesOn(m, f, a) && !Forwards(m, f, a, c)
    {}
    hide SwitchesOn;
    hide Forwards;
  }

  lemma ScannedOne(m: Manifest, s: set<string>, rest: set<string>, f: string,
      enabled: set<string>, forwarded: map<string, set<string>>, enabled': set<string>,
        forwarded': map<string, set<string>>)
    requires ScannedFeatures(m, s, rest, enabled, forwarded) && rest <= s && f in rest && f in m.features
    requires ScannedEntries(m.features[f], |m.features[f]|, enabled', forwarded', enabled, forwarded)
    ensures ScannedFeatures(m, s, rest - {f}, enabled', forwarded')
  {
    forall a
      ensures a in enabled' <==> a in enabled || SwitchesOn(m, f, a)
    {
      SwitchedByIndex(m, f, a);
    }
    forall a, c
      ensures c in Lookup(forwarded', a) <==> c in Lookup(forwarded, a) || Forwards(m, f, a, c)
    {
      ForwardedByIndex(m, f, a, c);
    }
    hide ScannedEntries;
    hide SwitchesOn;
    hide Forwards;
    hide Lookup;
  }

  lemma SwitchedByIndex(m: Manifest, f: string, a: string)
    requires f in m.features
    ensures SwitchesOn(m, f, a) <==> NamedBelow(m.features[f], |m.features[f]|, a)
  {
    hide NamesAlias;
    var entries := m.features[f];
    if SwitchesOn(m, f, a) {
      var e :| e in entries && NamesAlias(e, a);
      var k :| 0 <= k < |entries| && entries[k] == e;
    }
    if k :| 0 <= k < |entries| && NamesAlias(entries[k], a) {
      assert entries[k] in entries;
    }
  }

  lemma ForwardedByIndex(m: Manifest, f: string, a: string, c: string)
    requires f in m.features
    ensures Forwards(m, f, a, c) <==> ForwardedBelow(m.features[f], |m.features[f]|, a, c)
  {
    hide ParseEntry;
    var entries := m.features[f];
    if Forwards(m, f, a, c) {
      var e :| e in entries && ParseEntry(e) == Forward(a, c);
      var k :| 0 <= k < |entries| && entries[k] == e;
    }
    if k :| 0 <= k < |entries| && ParseEntry(entries[k]) == Forward(a, c) {
      assert entries[k] in entries;
    }
  }
}

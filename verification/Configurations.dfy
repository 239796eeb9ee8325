/** Named configurations as MultiSettings promises them: one is current and live, the
    others are put aside under their names, and some values are common to all. */
module Configurations {
  import opened Wrappers
  import opened SettingsStore

  datatype Configs = Configs(current: string, live: Dictionary, others: map<string, Dictionary>, common: Dictionary) {
    function Lookup(name: string): Option<Dictionary> {
      if name == current then Some(live) else if name in others then Some(others[name]) else None
    }

    function Names(): set<string> {
      others.Keys + {current}
    }

    predicate Valid() {
      current !in others
    }
  }

  /** What the next exit does: nothing, replace the live settings, or put them aside and
      make `target` current with these settings. */
  datatype Pending = Nothing | Replace(settings: Dictionary) | Switch(target: string, settings: Dictionary)

  // ----- operations -----

  datatype Op =
    | Write(key: string, value: Variant)
    | Remove(key: string)
    | SetCommon(key: string, value: Variant)
    | RemoveCommon(key: string)
    | Clone(source: string, name: string)
    | CloneInto(target: string, source: string)
    | Reset(target: string)
    | Rename(target: string, name: string)
    | Delete(target: string)
    | Select(target: string, left: Dictionary)

  function RemoveFrom(d: Dictionary, u: string): Dictionary {
    map k | k in d && k != u && !((u + "/") <= k) :: d[k]
  }

  /** The settings that a name already has among those put aside. */
  function Had(c: Configs, name: string): Dictionary {
    if name in c.others then c.others[name] else map[]
  }

  /** Stores settings under a name, over those it already has. */
  function PutAside(c: Configs, name: string, d: Dictionary): Configs {
    c.(others := c.others[name := Had(c, name) + d])
  }

  /** Removes what is put aside under a name, and the common value of that name with it. */
  function Purge(c: Configs, name: string): Configs {
    c.(others := c.others - {name}, common := c.common - {name})
  }

  /** The exit that carries out a pending change: the settings that become live are no
      longer put aside under their name. */
  function Exit(c: Configs, p: Pending): Configs {
    match p
    case Nothing => c
    case Replace(d) => Purge(c.(live := d), c.current)
    case Switch(t, d) => Purge(PutAside(c, c.current, c.live), t).(current := t, live := d)
  }

  function SetSettings(c: Configs, target: string, d: Dictionary): Configs {
    if target == c.current then Exit(c, Replace(d)) else PutAside(Purge(c, target), target, d)
  }

  function RenameTo(c: Configs, target: string, name: string): Configs
    requires target == c.current || target in c.others
  {
    if target == c.current then c.(current := name) else PutAside(Purge(c, target), name, c.others[target])
  }

  /** A configuration put aside under the key of the current name cannot be purged without
      losing the current name; PurgeKeepsName says so of the store. */
  predicate Purgeable(c: Configs, target: string) {
    target == c.current || target != CURRENT_NAME
  }

  /** What the menus offer. */
  predicate Offered(c: Configs, op: Op) {
    match op
    case Clone(source, name) => source in c.Names() && name !in c.Names()
    case CloneInto(target, source) => {target, source} <= c.Names() && source != target
    case Reset(target) => target in c.Names()
    case Rename(target, name) => target in c.Names() && name !in c.Names()
    case Delete(target) => target in c.others
    case Select(target, _) => target in c.others
    case _ => true
  }

  /** What they offer and what does not cost the current name. */
  predicate Enabled(c: Configs, op: Op) {
    && Offered(c, op)
    && match op
       case CloneInto(target, _) => Purgeable(c, target)
       case Reset(target) => Purgeable(c, target)
       case Rename(target, _) => Purgeable(c, target)
       case Delete(target) => Purgeable(c, target)
       case _ => true
  }

  /** The configurations after an operation and, where it restarts the window, the exit;
      `left` is what the application has made of the live settings by then. */
  function Apply(c: Configs, op: Op): Configs
    requires Enabled(c, op)
  {
    match op
    case Write(k, v) => c.(live := c.live[k := v])
    case Remove(k) => c.(live := RemoveFrom(c.live, k))
    case SetCommon(k, v) => c.(common := c.common[k := v])
    case RemoveCommon(k) => Purge(c, k)
    case Clone(source, name) => PutAside(c, name, c.Lookup(source).value)
    case CloneInto(target, source) => SetSettings(c, target, c.Lookup(source).value)
    case Reset(target) => SetSettings(c, target, map[])
    case Rename(target, name) => RenameTo(c, target, name)
    case Delete(target) => Purge(c, target)
    case Select(target, left) => Exit(c.(live := left), Switch(target, c.others[target]))
  }

  /** The configurations an operation is about; all others keep their settings. */
  function Touched(c: Configs, op: Op): set<string> {
    match op
    case Write(_, _) => {c.current}
    case Remove(_) => {c.current}
    case SetCommon(_, _) => {}
    case RemoveCommon(k) => {k}
    case Clone(_, name) => {name}
    case CloneInto(target, _) => {target}
    case Reset(target) => {target}
    case Rename(target, name) => {target, name}
    case Delete(target) => {target}
    case Select(_, _) => {c.current}
  }

  /** The names an operation purges, and so the common values it loses. */
  function Purged(c: Configs, op: Op): set<string> {
    match op
    case CloneInto(target, _) => {target}
    case Reset(target) => {target}
    case Rename(target, _) => if target == c.current then {} else {target}
    case Delete(target) => {target}
    case Select(target, _) => {target}
    case _ => {}
  }

  /** What each operation is for, told by what every name is found to stand for afterwards:
      no other configuration changes, and the common values only lose the purged name. */
  ghost predicate Does(c: Configs, op: Op, r: Configs, n: string) {
    match op
    case Write(k, v) =>
      r.current == c.current && r.common == c.common &&
      r.Lookup(n) == if n == c.current then Some(c.live[k := v]) else c.Lookup(n)
    case Remove(k) =>
      && r.current == c.current && r.common == c.common
      && (n != c.current ==> r.Lookup(n) == c.Lookup(n))
      && (forall u :: u in r.live <==> u in c.live && u != k && !(k + "/" <= u))
      && (forall u :: u in r.live ==> r.live[u] == c.live[u])
    case SetCommon(k, v) =>
      r.current == c.current && r.common == c.common[k := v] && r.Lookup(n) == c.Lookup(n)
    case RemoveCommon(k) =>
      r.current == c.current && r.common == c.common - {k} &&
      r.Lookup(n) == if n == k && n != c.current then None else c.Lookup(n)
    case Clone(source, name) =>
      r.current == c.current && r.common == c.common &&
      r.Lookup(n) == if n == name then c.Lookup(source) else c.Lookup(n)
    case CloneInto(target, source) =>
      r.current == c.current && r.common == c.common - {target} &&
      r.Lookup(n) == if n == target then c.Lookup(source) else c.Lookup(n)
    case Reset(target) =>
      r.current == c.current && r.common == c.common - {target} &&
      r.Lookup(n) == if n == target then Some(map[]) else c.Lookup(n)
    case Rename(target, name) =>
      && r.current == (if target == c.current then name else c.current)
      && r.common == (if target == c.current then c.common else c.common - {target})
      && r.Lookup(n) == if n == name then c.Lookup(target) else if n == target then None else c.Lookup(n)
    case Delete(target) =>
      r.current == c.current && r.common == c.common - {target} &&
      r.Lookup(n) == if n == target then None else c.Lookup(n)
    case Select(target, left) =>
      r.current == target && r.common == c.common - {target} &&
      r.Lookup(n) == if n == c.current then Some(left) else c.Lookup(n)
  }

  lemma OperationDoes(c: Configs, op: Op, n: string)
    requires c.Valid() && Enabled(c, op)
    ensures Does(c, op, Apply(c, op), n)
  {
    match op
    case Clone(source, _) => NothingBefore(c.Lookup(source).value);
    case CloneInto(_, source) => NothingBefore(c.Lookup(source).value);
    case Rename(target, _) => NothingBefore(c.Lookup(target).value);
    case Select(_, left) => NothingBefore(left);
    case Reset(_) => NothingBefore(map[]);
    case _ =>
  }

  lemma NothingBefore(d: Dictionary)
    ensures map[] + d == d
  {
  }

  /** An operation touches no configuration but its target, and never leaves the current
      name among the alternatives. */
  lemma OnlyTarget(c: Configs, op: Op, name: string)
    requires c.Valid() && Enabled(c, op)
    ensures Apply(c, op).Valid()
    ensures name !in Touched(c, op) ==> Apply(c, op).Lookup(name) == c.Lookup(name)
    ensures op.Select? ==> Apply(c, op).Lookup(c.current) == Some(op.left)
    ensures op.Select? ==> Apply(c, op).current == op.target && Apply(c, op).Names() == c.Names()
  {
    if op.Select? {
      assert map[] + op.left == op.left;
    }
  }

  /** Common values other than the one that is set or removed are lost exactly when a
      configuration of that name is purged. */
  lemma CommonKept(c: Configs, op: Op)
    requires Enabled(c, op) && !op.SetCommon? && !op.RemoveCommon?
    ensures Apply(c, op).common == c.common - Purged(c, op)
    ensures Apply(c, op).common == c.common <==> forall n :: n in Purged(c, op) ==> n !in c.common
  {
    var kept := c.common - Purged(c, op);
    if n :| n in Purged(c, op) && n in c.common {
      assert n !in kept;
    } else {
      assert kept == c.common;
    }
  }

  /** Removing a common value takes a configuration of that name with it: none is lost
      exactly when none is put aside under the key. */
  lemma RemovingCommonKeeps(c: Configs, key: string)
    requires c.Valid()
    ensures (forall n :: Apply(c, RemoveCommon(key)).Lookup(n) == c.Lookup(n)) <==> key !in c.others
  {
    if key in c.others {
      assert Apply(c, RemoveCommon(key)).Lookup(key) != c.Lookup(key);
    }
  }

  predicate EnabledAll(c: Configs, ops: seq<Op>)
    decreases |ops|
  {
    ops == [] || (Enabled(c, ops[0]) && EnabledAll(Apply(c, ops[0]), ops[1..]))
  }

  function Run(c: Configs, ops: seq<Op>): Configs
    requires EnabledAll(c, ops)
    decreases |ops|
  {
    if ops == [] then c else Run(Apply(c, ops[0]), ops[1..])
  }

  lemma NothingRun(c: Configs)
    ensures EnabledAll(c, []) && Run(c, []) == c
  {
  }

  lemma {:induction false} RunSnoc(c: Configs, ops: seq<Op>, op: Op)
    requires EnabledAll(c, ops) && Enabled(Run(c, ops), op)
    ensures EnabledAll(c, ops + [op]) && Run(c, ops + [op]) == Apply(Run(c, ops), op)
    decreases |ops|
  {
    hide Apply, Enabled;
    if ops == [] {
      assert [] + [op] == [op] && [op][1..] == [];
    } else {
      assert (ops + [op])[1..] == ops[1..] + [op];
      RunSnoc(Apply(c, ops[0]), ops[1..], op);
    }
  }

  /** No operation of the run is about the configuration. */
  predicate Untouched(c: Configs, ops: seq<Op>, name: string)
    requires EnabledAll(c, ops)
    decreases |ops|
  {
    ops == [] || (name !in Touched(c, ops[0]) && Untouched(Apply(c, ops[0]), ops[1..], name))
  }

  lemma {:induction false} RunKeeps(c: Configs, ops: seq<Op>, name: string)
    requires c.Valid() && EnabledAll(c, ops) && Untouched(c, ops, name)
    ensures Run(c, ops).Valid() && Run(c, ops).Lookup(name) == c.Lookup(name)
    decreases |ops|
  {
    hide Apply, Touched;
    if ops != [] {
      OnlyTarget(c, ops[0], name);
      RunKeeps(Apply(c, ops[0]), ops[1..], name);
    }
  }

  /** Leaving A for another configuration, doing there whatever does not touch A, and
      coming back restores A as it was when it was left. */
  lemma ThereAndBack(c: Configs, b: string, leaving: Dictionary, ops: seq<Op>, returning: Dictionary)
    requires c.Valid() && b in c.others
    requires EnabledAll(Apply(c, Select(b, leaving)), ops) && Untouched(Apply(c, Select(b, leaving)), ops, c.current)
    requires Run(Apply(c, Select(b, leaving)), ops).current != c.current
    ensures var away := Run(Apply(c, Select(b, leaving)), ops);
            && Enabled(away, Select(c.current, returning))
            && var back := Apply(away, Select(c.current, returning));
               back.current == c.current && back.live == leaving && back.Lookup(away.current) == Some(returning)
  {
    hide Touched, Run, Purge, PutAside;
    OnlyTarget(c, Select(b, leaving), c.current);
    RunKeeps(Apply(c, Select(b, leaving)), ops, c.current);
    var away := Run(Apply(c, Select(b, leaving)), ops);
    OnlyTarget(away, Select(c.current, returning), away.current);
  }

  // ----- views -----

  function Abs(v: View): Configs
    requires Common(CURRENT_NAME) in v
  {
    Configs(v[Common(CURRENT_NAME)].ToString(), LiveOf(v), OthersOf(v), CommonOf(v))
  }

  ghost predicate Agree(v: View, w: View, k: Key) {
    (k in v <==> k in w) && (k in v ==> v[k] == w[k])
  }

  lemma SameLive(v: View, w: View)
    requires forall u :: Agree(v, w, Live(u))
    ensures LiveOf(v) == LiveOf(w)
  {
    forall u ensures (u in LiveOf(v) <==> u in LiveOf(w)) && (u in LiveOf(v) ==> LiveOf(v)[u] == LiveOf(w)[u]) {
      assert Agree(v, w, Live(u));
    }
  }

  lemma SameOther(v: View, w: View, n: string)
    requires forall u :: Agree(v, w, Other(n, u))
    ensures OtherOf(v, n) == OtherOf(w, n) && (n in Names(v) <==> n in Names(w))
  {
    hide UserKey;
    forall u ensures (u in OtherOf(v, n) <==> u in OtherOf(w, n)) &&
      (u in OtherOf(v, n) ==> OtherOf(v, n)[u] == OtherOf(w, n)[u]) {
      assert Agree(v, w, Other(n, u));
    }
    if n in Names(v) {
      var k :| k in v && k.Other? && k.name == n;
      assert Agree(v, w, Other(n, k.key));
    }
    if n in Names(w) {
      var k :| k in w && k.Other? && k.name == n;
      assert Agree(v, w, Other(n, k.key));
    }
  }

  lemma SameCommon(v: View, w: View)
    requires forall c :: c != CURRENT_NAME ==> Agree(v, w, Common(c))
    ensures CommonOf(v) == CommonOf(w)
  {
    forall c ensures (c in CommonOf(v) <==> c in CommonOf(w)) &&
      (c in CommonOf(v) ==> CommonOf(v)[c] == CommonOf(w)[c]) {
      assert c != CURRENT_NAME ==> Agree(v, w, Common(c));
    }
  }

  /** Views that agree on all configurations but `n` put the same ones aside. */
  lemma SameOthersBut(v: View, w: View, n: string)
    requires forall m, u :: m != n ==> Agree(v, w, Other(m, u))
    ensures OthersOf(v) - {n} == OthersOf(w) - {n}
  {
    hide OtherOf, Names;
    forall m | m != n ensures OtherOf(v, m) == OtherOf(w, m) && (m in Names(v) <==> m in Names(w)) {
      SameOther(v, w, m);
    }
  }

  /** Where load_from puts a setting: in the live configuration or in another one. */
  function KeyIn(name: Option<string>, u: string): Key {
    if name.None? then Live(u) else Other(name.value, u)
  }

  predicate Loaded(name: Option<string>, d: Dictionary, k: Key) {
    !k.Common? && k == KeyIn(name, k.key) && k.key in d
  }

  function Put(v: View, name: Option<string>, d: Dictionary): View {
    map k | k in v.Keys + set u | u in d :: KeyIn(name, u) :: if Loaded(name, d, k) then d[k.key] else v[k]
  }

  lemma PutAt(v: View, name: Option<string>, d: Dictionary, k: Key)
    ensures k in Put(v, name, d) <==> k in v || Loaded(name, d, k)
    ensures k in Put(v, name, d) ==> Put(v, name, d)[k] == if Loaded(name, d, k) then d[k.key] else v[k]
  {
    if Loaded(name, d, k) {
      assert k in set u | u in d :: KeyIn(name, u);
    }
  }

  lemma PutOne(v: View, name: Option<string>, d: Dictionary, u: string, x: Variant)
    ensures Put(v, name, d[u := x]) == Put(v, name, d)[KeyIn(name, u) := x]
  {
    hide Put;
    var a, b := Put(v, name, d[u := x]), Put(v, name, d)[KeyIn(name, u) := x];
    forall k ensures (k in a <==> k in b) && (k in a ==> a[k] == b[k]) {
      PutAt(v, name, d, k);
      PutAt(v, name, d[u := x], k);
    }
  }

  lemma PutNone(v: View, name: Option<string>)
    ensures Put(v, name, map[]) == v
  {
  }

  /** A view with the settings `d` under a name, over those it has; an empty dictionary
      leaves the placeholder. */
  function PutOther(v: View, n: string, d: Dictionary): View {
    if d == map[] then v[Other(n, PLACE_HOLDER) := Invalid] else Put(v, Some(n), d)
  }

  lemma PutOtherAt(v: View, n: string, d: Dictionary, k: Key)
    requires UserKeys(d)
    ensures var w := PutOther(v, n, d);
            && (!(k.Other? && k.name == n) ==> Agree(v, w, k))
            && (k.Other? && k.name == n && UserKey(k.key) ==>
                  (k in w <==> k in v || k.key in d) && (k in w ==> w[k] == if k.key in d then d[k.key] else v[k]))
            && (k.Other? && k.name == n && (k.key in d || (d == map[] && k.key == PLACE_HOLDER)) ==> k in w)
  {
    hide UserKey;
    PlaceHolderReserved();
    PutAt(v, Some(n), d, k);
  }

  lemma PutOtherGives(v: View, n: string, d: Dictionary)
    requires Common(CURRENT_NAME) in v && UserKeys(d)
    ensures Common(CURRENT_NAME) in PutOther(v, n, d)
    ensures Abs(PutOther(v, n, d)) == PutAside(Abs(v), n, d)
  {
    hide LiveOf, CommonOf, PutOther, OtherOf, Names;
    var w := PutOther(v, n, d);
    forall k: Key ensures !(k.Other? && k.name == n) ==> Agree(v, w, k) {
      PutOtherAt(v, n, d, k);
    }
    SameLive(v, w);
    SameCommon(v, w);
    SameOthersBut(v, w, n);
    assert Agree(v, w, Common(CURRENT_NAME));
    PutOtherNew(v, n, d);
    NoneUnder(v, n);
    assert forall m :: m in OthersOf(w) <==> m == n || m in OthersOf(w) - {n};
    assert forall m :: m != n && m in OthersOf(w) ==> OthersOf(w)[m] == (OthersOf(w) - {n})[m];
    assert forall m :: m != n && m in OthersOf(v) ==> OthersOf(v)[m] == (OthersOf(v) - {n})[m];
  }

  lemma NoneUnder(v: View, n: string)
    ensures n !in OthersOf(v) ==> OtherOf(v, n) == map[]
  {
    hide UserKey;
  }

  lemma PutOtherNew(v: View, n: string, d: Dictionary)
    requires UserKeys(d)
    ensures n in Names(PutOther(v, n, d)) && OtherOf(PutOther(v, n, d), n) == OtherOf(v, n) + d
  {
    hide UserKey, PutOther;
    var w, want := PutOther(v, n, d), OtherOf(v, n) + d;
    forall u ensures (u in OtherOf(w, n) <==> u in want) && (u in want ==> OtherOf(w, n)[u] == want[u]) {
      PutOtherAt(v, n, d, Other(n, u));
    }
    if d == map[] {
      PutOtherAt(v, n, d, Other(n, PLACE_HOLDER));
      assert Other(n, PLACE_HOLDER) in w;
    } else {
      var u :| u in d;
      PutOtherAt(v, n, d, Other(n, u));
      assert Other(n, u) in w;
    }
  }

  lemma PutLiveGives(v: View, d: Dictionary)
    requires Common(CURRENT_NAME) in v && forall k :: k in v ==> !k.Live?
    ensures Common(CURRENT_NAME) in Put(v, None, d)
    ensures Abs(Put(v, None, d)) == Abs(v).(live := d)
  {
    hide CommonOf, OthersOf, Put;
    var w := Put(v, None, d);
    forall k: Key ensures (!k.Live? ==> Agree(v, w, k)) &&
      (k.Live? ==> (k in w <==> k.key in d) && (k in w ==> w[k] == d[k.key])) {
      PutAt(v, None, d, k);
    }
    SameCommon(v, w);
    SameOthers(v, w);
    assert Agree(v, w, Common(CURRENT_NAME));
    forall u ensures (u in LiveOf(w) <==> u in d) && (u in d ==> LiveOf(w)[u] == d[u]) {
      assert Live(u) in w <==> u in d;
    }
  }

  lemma SameOthers(v: View, w: View)
    requires forall m, u :: Agree(v, w, Other(m, u))
    ensures OthersOf(v) == OthersOf(w)
  {
    hide OtherOf, Names;
    forall m ensures OtherOf(v, m) == OtherOf(w, m) && (m in Names(v) <==> m in Names(w)) {
      SameOther(v, w, m);
    }
  }

  /** The view without its live settings. */
  function NoLive(v: View): View {
    map k | k in v && !k.Live? :: v[k]
  }

  lemma NoLiveGives(v: View)
    requires Common(CURRENT_NAME) in v
    ensures Common(CURRENT_NAME) in NoLive(v)
    ensures Abs(NoLive(v)) == Abs(v).(live := map[])
  {
    hide CommonOf, OthersOf;
    SameCommon(v, NoLive(v));
    SameOthers(v, NoLive(v));
  }

  lemma LiveGives(v: View, u: string, x: Variant)
    requires Common(CURRENT_NAME) in v
    ensures Abs(v[Live(u) := x]) == Abs(v).(live := LiveOf(v)[u := x])
    ensures Abs(WithoutLive(v, u)) == Abs(v).(live := RemoveFrom(LiveOf(v), u))
  {
    hide CommonOf, OthersOf;
    SameCommon(v, v[Live(u) := x]);
    SameOthers(v, v[Live(u) := x]);
    SameCommon(v, WithoutLive(v, u));
    SameOthers(v, WithoutLive(v, u));
  }

  lemma CommonGives(v: View, c: string, x: Variant)
    requires Common(CURRENT_NAME) in v && c != CURRENT_NAME
    ensures Abs(v[Common(c) := x]) == Abs(v).(common := CommonOf(v)[c := x])
  {
    hide LiveOf, OthersOf;
    SameLive(v, v[Common(c) := x]);
    SameOthers(v, v[Common(c) := x]);
  }

  lemma NameGives(v: View, x: Variant)
    ensures Abs(v[Common(CURRENT_NAME) := x]) == Configs(x.ToString(), LiveOf(v), OthersOf(v), CommonOf(v))
  {
    hide LiveOf, OthersOf, CommonOf;
    var w := v[Common(CURRENT_NAME) := x];
    SameLive(v, w);
    SameOthers(v, w);
    SameCommon(v, w);
  }

  lemma LosesOne(d: Dictionary, n: string)
    ensures d - {n} == d <==> n !in d
  {
    if n in d {
      assert n !in d - {n};
    }
  }

  /** Purging a name keeps the current name exactly when it is not the key of that, and the
      other common values exactly when it is not the key of one. */
  lemma PurgeKeepsName(v: View, n: string)
    requires Common(CURRENT_NAME) in v
    ensures Common(CURRENT_NAME) in WithoutNamed(v, n) <==> n != CURRENT_NAME
    ensures CommonOf(WithoutNamed(v, n)) == CommonOf(v) <==> n !in CommonOf(v)
  {
    hide CommonOf, OthersOf, LiveOf, Purge;
    PurgeGives(v, n);
    LosesOne(CommonOf(v), n);
  }

  lemma PurgeGives(v: View, n: string)
    ensures LiveOf(WithoutNamed(v, n)) == LiveOf(v) && OthersOf(WithoutNamed(v, n)) == OthersOf(v) - {n}
    ensures CommonOf(WithoutNamed(v, n)) == CommonOf(v) - {n}
    ensures Common(CURRENT_NAME) in v && n != CURRENT_NAME ==> Abs(WithoutNamed(v, n)) == Purge(Abs(v), n)
  {
    hide LiveOf, OtherOf, OthersOf, CommonOf, WithoutNamed;
    var w := WithoutNamed(v, n);
    forall k: Key ensures k != Common(n) && !(k.Other? && k.name == n) ==> Agree(v, w, k) {
      WithoutNamedAt(v, n, k);
    }
    SameLive(v, w);
    PurgeLosesOther(v, n);
    PurgeLosesCommon(v, n);
    WithoutNamedAt(v, n, Common(CURRENT_NAME));
  }

  lemma WithoutNamedAt(v: View, n: string, k: Key)
    ensures if k == Common(n) || (k.Other? && k.name == n) then k !in WithoutNamed(v, n)
            else Agree(v, WithoutNamed(v, n), k)
  {
  }

  lemma PurgeLosesOther(v: View, n: string)
    ensures OthersOf(WithoutNamed(v, n)) == OthersOf(v) - {n}
  {
    hide OtherOf, WithoutNamed;
    var w := WithoutNamed(v, n);
    forall k: Key ensures if k == Common(n) || (k.Other? && k.name == n) then k !in w else Agree(v, w, k) {
      WithoutNamedAt(v, n, k);
    }
    SameOthersBut(v, w, n);
    assert n !in Names(w);
    assert OthersOf(w) - {n} == OthersOf(w);
  }

  lemma PurgeLosesCommon(v: View, n: string)
    ensures CommonOf(WithoutNamed(v, n)) == CommonOf(v) - {n}
  {
  }
}

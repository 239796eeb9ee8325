/** The flat key/value store behind MultiSettings: what QSettings does to string keys with
    '/' separated groups, and the structured keys they stand for. */
module SettingsStore {
  const ROOT_GROUP := "MultiSettings"
  const CURRENT_GROUP_KEY := "CurrentMultiSettingsConfiguration"
  const CURRENT_NAME := "CurrentName"
  const PLACE_HOLDER := "MultiSettingsPlaceHolder"

  datatype Variant = Invalid | Text(text: string) {
    function ToString(): string {
      if Invalid? then "" else text
    }
  }

  type Store = map<string, Variant>
  type Dictionary = map<string, Variant>

  predicate ContainsAt(s: string, i: nat, sub: string) {
    i + |sub| <= |s| && s[i..i + |sub|] == sub
  }

  predicate Contains(s: string, sub: string) {
    exists i :: 0 <= i <= |s| && ContainsAt(s, i, sub)
  }

  // ----- QSettings -----

  /** The keys of a group, relative to it. */
  function AllKeys(s: Store, group: string): (r: set<string>)
    ensures forall u :: u in r <==> group + u in s
  {
    assert forall k: string :: group <= k ==> group + k[|group|..] == k;
    assert forall u: string :: group <= group + u && (group + u)[|group|..] == u;
    set k | k in s && group <= k :: k[|group|..]
  }

  function Segment(s: string): string
    requires '/' in s
  {
    if s[0] == '/' then [] else [s[0]] + Segment(s[1..])
  }

  /** The names of the groups directly inside a group. */
  function ChildGroups(s: Store, group: string): set<string> {
    set k | k in s && group <= k && '/' in k[|group|..] :: Segment(k[|group|..])
  }

  /** `remove (key)`: the key and everything in the group of that name. `remove ("")` within
      a group is this for the group's own name, so a key that bears it goes too. */
  function RemoveKey(s: Store, key: string): Store {
    map k | k in s && k != key && !((key + "/") <= k) :: s[k]
  }

  // ----- structured keys -----

  /** A key of the live configuration, of the common section, or of another configuration. */
  datatype Key = Live(key: string) | Common(key: string) | Other(name: string, key: string)

  const ALTERNATIVES := "MultiSettings/"

  function Group(name: string): string {
    ALTERNATIVES + name + "/"
  }

  function Path(k: Key): string {
    match k
    case Live(u) => u
    case Common(c) => ALTERNATIVES + c
    case Other(n, u) => Group(n) + u
  }

  predicate SlashFree(s: string) {
    '/' !in s
  }

  predicate ValidName(n: string) {
    n != "" && SlashFree(n)
  }

  predicate UserKey(u: string) {
    !Contains(u, ROOT_GROUP)
  }

  predicate UserKeys(d: Dictionary) {
    forall u :: u in d ==> UserKey(u)
  }

  predicate KeyOk(k: Key) {
    match k
    case Live(u) => UserKey(u)
    case Common(c) => ValidName(c)
    case Other(n, u) => ValidName(n) && (UserKey(u) || u == PLACE_HOLDER)
  }

  type View = map<Key, Variant>

  /** `v` is the store with its keys taken apart. */
  ghost predicate Rep(s: Store, v: View) {
    && (forall k :: k in v ==> KeyOk(k) && Path(k) in s && s[Path(k)] == v[k])
    && (forall p :: p in s ==> exists k :: k in v && Path(k) == p)
  }

  // ----- strings -----

  lemma ReservedPaths(k: Key)
    requires !k.Live?
    ensures Contains(Path(k), ROOT_GROUP) && ALTERNATIVES <= Path(k)
  {
    assert ContainsAt(Path(k), 0, ROOT_GROUP);
  }

  lemma UserPath(u: string)
    requires UserKey(u)
    ensures !(ALTERNATIVES <= u)
  {
    if ALTERNATIVES <= u {
      assert u[..|ALTERNATIVES|] == ALTERNATIVES;
      assert u[0..|ROOT_GROUP|] == ALTERNATIVES[..|ROOT_GROUP|];
      assert ContainsAt(u, 0, ROOT_GROUP);
    }
  }

  lemma PlaceHolderReserved()
    ensures Contains(PLACE_HOLDER, ROOT_GROUP) && !UserKey(PLACE_HOLDER)
    ensures Contains(CURRENT_GROUP_KEY, ROOT_GROUP)
  {
    assert ContainsAt(PLACE_HOLDER, 0, ROOT_GROUP);
    assert CURRENT_GROUP_KEY == "Current" + ROOT_GROUP + "Configuration";
    assert ContainsAt(CURRENT_GROUP_KEY, 7, ROOT_GROUP);
  }

  /** Reading a slash-free name off the front of a path. */
  lemma {:induction false} FirstSegment(n: string, rest: string)
    requires SlashFree(n)
    ensures '/' in n + "/" + rest && Segment(n + "/" + rest) == n
  {
    var s := n + "/" + rest;
    assert s[|n|] == '/';
    if n != "" {
      FirstSegment(n[1..], rest);
      assert s[1..] == n[1..] + "/" + rest;
    }
  }

  lemma {:induction false} SegmentShape(s: string)
    requires '/' in s
    ensures SlashFree(Segment(s)) && (Segment(s) + "/") <= s
  {
    if s[0] != '/' {
      SegmentShape(s[1..]);
      assert s == [s[0]] + s[1..];
    }
  }

  lemma SameSegment(n: string, m: string, u: string, w: string)
    requires SlashFree(n) && SlashFree(m) && n + "/" + u == m + "/" + w
    ensures n == m && u == w
  {
    FirstSegment(n, u);
    FirstSegment(m, w);
    assert (n + "/" + u)[|n| + 1..] == u && (m + "/" + w)[|m| + 1..] == w;
  }

  lemma OtherTail(n: string, u: string)
    ensures Path(Other(n, u))[|ALTERNATIVES|..] == n + "/" + u
    ensures Path(Other(n, u))[|Group(n)|..] == u
    ensures Group(n) <= Path(Other(n, u))
  {
    assert Path(Other(n, u)) == ALTERNATIVES + (n + "/" + u);
  }

  lemma CommonHasNoGroup(c: string, n: string, rest: string)
    requires SlashFree(c)
    ensures ALTERNATIVES + c != Group(n) + rest
  {
    var tail := n + "/" + rest;
    assert tail[|n|] == '/';
    assert Group(n) + rest == ALTERNATIVES + tail;
    assert (ALTERNATIVES + c)[|ALTERNATIVES|..] == c && (ALTERNATIVES + tail)[|ALTERNATIVES|..] == tail;
  }

  /** A path belongs to one structured key only. */
  lemma PathInjective(a: Key, b: Key)
    requires KeyOk(a) && KeyOk(b) && Path(a) == Path(b)
    ensures a == b
  {
    hide UserKey;
    if a.Live? != b.Live? {
      UserPath(if a.Live? then a.key else b.key);
      ReservedPaths(if a.Live? then b else a);
    } else if a.Other? && b.Other? {
      OtherTail(a.name, a.key);
      OtherTail(b.name, b.key);
      SameSegment(a.name, b.name, a.key, b.key);
    } else if a.Common? && b.Common? {
      assert Path(a)[|ALTERNATIVES|..] == a.key && Path(b)[|ALTERNATIVES|..] == b.key;
    } else if !a.Live? {
      var o, c := if a.Other? then a else b, if a.Other? then b else a;
      CommonHasNoGroup(c.key, o.name, o.key);
    }
  }

  /** Which paths a configuration's group holds. */
  lemma InGroup(n: string, k: Key)
    requires ValidName(n) && KeyOk(k)
    ensures Group(n) <= Path(k) <==> k.Other? && k.name == n
  {
    hide UserKey;
    var p := Path(k);
    if Group(n) <= p {
      var rest := p[|Group(n)|..];
      assert p == Group(n) + rest;
      assert p == ALTERNATIVES + (n + "/" + rest);
      if k.Live? {
        UserPath(k.key);
      } else if k.Common? {
        CommonHasNoGroup(k.key, n, rest);
      } else {
        OtherTail(k.name, k.key);
        SameSegment(n, k.name, rest, k.key);
      }
    } else if k.Other? && k.name == n {
      OtherTail(k.name, k.key);
    }
  }

  // ----- what a view says about configurations -----

  function LiveOf(v: View): Dictionary {
    map k | k in v && k.Live? :: k.key := v[k]
  }

  /** A configuration's settings; the placeholder that keeps an empty group in being is not one. */
  function OtherOf(v: View, name: string): Dictionary {
    map k | k in v && k.Other? && k.name == name && UserKey(k.key) :: k.key := v[k]
  }

  function Names(v: View): set<string> {
    set k | k in v && k.Other? :: k.name
  }

  function OthersOf(v: View): map<string, Dictionary> {
    map n | n in Names(v) :: OtherOf(v, n)
  }

  function CommonOf(v: View): Dictionary {
    map k | k in v && k.Common? && k.key != CURRENT_NAME :: k.key := v[k]
  }

  /** The settings get_settings gathers in a group. */
  predicate Gathered(u: string) {
    !Contains(u, ROOT_GROUP) && !Contains(u, PLACE_HOLDER)
  }

  function Settings(s: Store, group: string): Dictionary {
    map u | u in AllKeys(s, group) && Gathered(u) :: s[group + u]
  }

  lemma GatheredAreUserKeys(u: string)
    ensures Gathered(u) <==> UserKey(u)
  {
    if Contains(u, PLACE_HOLDER) {
      var i :| 0 <= i <= |u| && ContainsAt(u, i, PLACE_HOLDER);
      assert u[i..i + |PLACE_HOLDER|][..|ROOT_GROUP|] == ROOT_GROUP;
      assert u[i..i + |ROOT_GROUP|] == u[i..i + |PLACE_HOLDER|][..|ROOT_GROUP|];
      assert ContainsAt(u, i, ROOT_GROUP);
    }
  }

  lemma LiveSettings(s: Store, v: View)
    requires Rep(s, v)
    ensures Settings(s, "") == LiveOf(v)
  {
    hide UserKey, Gathered, Path;
    var got, want := Settings(s, ""), LiveOf(v);
    forall u ensures (u in got <==> u in want) && (u in got ==> got[u] == want[u]) {
      assert "" + u == u;
      GatheredAreUserKeys(u);
      LivePath(u);
      if u in got {
        var k :| k in v && Path(k) == u;
        LiveOnly(k, u);
      }
    }
  }

  lemma LivePath(u: string)
    ensures Path(Live(u)) == u
  {
  }

  lemma LiveOnly(k: Key, u: string)
    requires Path(k) == u && UserKey(u)
    ensures k == Live(u)
  {
    if !k.Live? {
      ReservedPaths(k);
    }
  }

  lemma OtherSettings(s: Store, v: View, n: string)
    requires Rep(s, v) && ValidName(n)
    ensures Settings(s, Group(n)) == OtherOf(v, n)
  {
    hide UserKey, Gathered, Path, Group, KeyOk;
    var got, want := Settings(s, Group(n)), OtherOf(v, n);
    forall u ensures (u in got <==> u in want) && (u in got ==> got[u] == want[u]) {
      GatheredAreUserKeys(u);
      OtherPath(n, u);
      if u in got {
        var k :| k in v && Path(k) == Group(n) + u;
        OtherOnly(k, n, u);
      }
    }
  }

  lemma OtherPath(n: string, u: string)
    ensures Path(Other(n, u)) == Group(n) + u
  {
  }

  lemma OtherOnly(k: Key, n: string, u: string)
    requires KeyOk(k) && ValidName(n) && Path(k) == Group(n) + u
    ensures k == Other(n, u)
  {
    InGroup(n, k);
    OtherTail(k.name, k.key);
    assert (Group(n) + u)[|Group(n)|..] == u;
  }

  lemma NamesAreChildGroups(s: Store, v: View)
    requires Rep(s, v)
    ensures ChildGroups(s, ALTERNATIVES) == Names(v)
  {
    hide UserKey;
    forall n ensures n in ChildGroups(s, ALTERNATIVES) <==> n in Names(v) {
      if n in ChildGroups(s, ALTERNATIVES) {
        var p :| p in s && ALTERNATIVES <= p && '/' in p[|ALTERNATIVES|..] && Segment(p[|ALTERNATIVES|..]) == n;
        var k :| k in v && Path(k) == p;
        if k.Live? {
          UserPath(k.key);
        } else if k.Common? {
          assert p[|ALTERNATIVES|..] == k.key;
        } else {
          OtherTail(k.name, k.key);
          FirstSegment(k.name, k.key);
        }
      }
      if n in Names(v) {
        var k :| k in v && k.Other? && k.name == n;
        OtherTail(n, k.key);
        FirstSegment(n, k.key);
        assert Path(k) in s && ALTERNATIVES <= Path(k);
      }
    }
  }

  // ----- primitive updates -----

  lemma RepSet(s: Store, v: View, k: Key, x: Variant)
    requires Rep(s, v) && KeyOk(k)
    ensures Rep(s[Path(k) := x], v[k := x])
  {
    hide KeyOk, Path;
    var s1, v1 := s[Path(k) := x], v[k := x];
    forall j | j in v1 ensures KeyOk(j) && Path(j) in s1 && s1[Path(j)] == v1[j] {
      if j != k && Path(j) == Path(k) {
        PathInjective(j, k);
      }
    }
    forall p | p in s1 ensures exists j :: j in v1 && Path(j) == p {
      if p == Path(k) {
        assert k in v1;
      } else {
        var j :| j in v && Path(j) == p;
        assert j in v1;
      }
    }
  }

  /** The live keys that `remove (u)` takes away. */
  predicate Below(k: Key, u: string) {
    k.Live? && (k.key == u || (u + "/") <= k.key)
  }

  function WithoutLive(v: View, u: string): View {
    map k | k in v && !Below(k, u) :: v[k]
  }

  lemma NotAboveReserved(k: Key, u: string)
    requires UserKey(u) && !k.Live?
    ensures Path(k) != u && !((u + "/") <= Path(k))
  {
    var p := Path(k);
    if p == u {
      LiveOnly(k, u);
    }
    ReservedPaths(k);
    if (u + "/") <= p {
      assert p[|u|] == (u + "/")[|u|] == '/';
      if |u| < |ROOT_GROUP| {
        assert p[|u|] == ALTERNATIVES[|u|];
        assert ALTERNATIVES[|u|] == ROOT_GROUP[|u|];
        RootGroupSlashFree(|u|);
      } else {
        StartsWithRoot(u, p);
      }
    }
  }

  lemma StartsWithRoot(u: string, p: string)
    requires ALTERNATIVES <= p && (u + "/") <= p && |u| >= |ROOT_GROUP|
    ensures !UserKey(u)
  {
    assert u[..|ROOT_GROUP|] == p[..|ROOT_GROUP|];
    assert ALTERNATIVES[..|ROOT_GROUP|] == ROOT_GROUP;
    assert u[0..|ROOT_GROUP|] == u[..|ROOT_GROUP|];
    assert ContainsAt(u, 0, ROOT_GROUP);
  }

  lemma RootGroupSlashFree(i: nat)
    requires i < |ROOT_GROUP|
    ensures ROOT_GROUP[i] != '/'
  {
  }

  lemma RepRemoveLive(s: Store, v: View, u: string)
    requires Rep(s, v) && UserKey(u)
    ensures Rep(RemoveKey(s, u), WithoutLive(v, u))
  {
    hide UserKey;
    var s1, v1 := RemoveKey(s, u), WithoutLive(v, u);
    forall k | k in v ensures k in v1 <==> Path(k) in s1 {
      if !k.Live? {
        NotAboveReserved(k, u);
      }
    }
    forall p | p in s1 ensures exists k :: k in v1 && Path(k) == p {
      var k :| k in v && Path(k) == p;
      assert k in v1;
    }
  }

  /** A view without the common value and without the configuration of a name. */
  function WithoutNamed(v: View, c: string): View {
    map k | k in v && k != Common(c) && !(k.Other? && k.name == c) :: v[k]
  }

  /** Removing a common value also removes the group of that name, and purging that group
      the common value. */
  lemma RepRemoveNamed(s: Store, v: View, c: string)
    requires Rep(s, v) && ValidName(c)
    ensures Rep(RemoveKey(s, ALTERNATIVES + c), WithoutNamed(v, c))
  {
    hide KeyOk, Path, Group;
    var s1, v1 := RemoveKey(s, ALTERNATIVES + c), WithoutNamed(v, c);
    GroupIs(c);
    forall k | k in v ensures k in v1 <==> Path(k) in s1 {
      InGroup(c, k);
      CommonOk(c);
      if Path(k) == Path(Common(c)) {
        PathInjective(k, Common(c));
      }
    }
    forall p | p in s1 ensures exists k :: k in v1 && Path(k) == p {
      var k :| k in v && Path(k) == p;
      assert k in v1;
    }
  }

  /** Purging a configuration named like a common value loses that value, and one named
      like the key of the current name loses the current name. */
  lemma PurgeLosesNamesake()
    ensures var s: Store := map["MultiSettings/CurrentName" := Text("Default"),
                                "MultiSettings/Splash_v1.7" := Text("false"),
                                "MultiSettings/Splash_v1.7/MyCall" := Text("K1JT")];
            RemoveKey(s, ALTERNATIVES + "Splash_v1.7") == map["MultiSettings/CurrentName" := Text("Default")]
    ensures var s: Store := map["MultiSettings/CurrentName" := Text("Default"),
                                "MultiSettings/CurrentName/MyCall" := Text("K1JT")];
            RemoveKey(s, ALTERNATIVES + CURRENT_NAME) == map[]
  {
    var splash := "MultiSettings/Splash_v1.7";
    assert ALTERNATIVES + "Splash_v1.7" == splash && ALTERNATIVES + CURRENT_NAME == "MultiSettings/CurrentName";
    assert "MultiSettings/Splash_v1.7/MyCall" == splash + "/" + "MyCall";
    assert "MultiSettings/CurrentName/MyCall" == "MultiSettings/CurrentName" + "/" + "MyCall";
    assert "MultiSettings/CurrentName"[14] == 'C' && splash[14] == 'S';
  }

  lemma GroupIs(c: string)
    ensures Path(Common(c)) == ALTERNATIVES + c && Path(Common(c)) + "/" == Group(c)
  {
  }

  lemma CommonOk(c: string)
    requires ValidName(c)
    ensures KeyOk(Common(c))
  {
  }
}

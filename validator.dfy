/** The check run before a menu is created: it lists every problem with the
    avatar, the object to dress, the menu name and the variations, and the
    menu may be created only when the list is empty.

    The open scene is a hierarchy whose root stands for the scene itself:
    its children are the scene's root objects, so a game object of the scene
    is a non-empty address and a root object has no parent. */
module Validator {
  import opened Hierarchy
  import opened Variations

  /** The problems the check reports, variations numbered from 1 as in the
      messages shown to the user. */
  datatype ValidationError =
    | NoAvatarRoot
    | NoAvatarDescriptor
    | NoTarget
    | TargetOutsideAvatar
    | NoMenuName
    | NoVariations
    | UnnamedVariation(number: nat)
    | NoPrefab(number: nat)
    | NoRenderer(number: nat)
    | DuplicateName(name: string)

  /** A game object of the scene `scene`. */
  predicate InScene(scene: Node, a: Address)
  {
    1 <= |a| && ValidAddress(scene, a)
  }

  /** The avatar root and the object to dress, when set, are objects of the
      scene. */
  predicate ObjectsInScene(scene: Node, avatarRoot: Option<Address>, target: Option<Address>)
  {
    && (avatarRoot.Some? ==> InScene(scene, avatarRoot.value))
    && (target.Some? ==> InScene(scene, target.value))
  }

  /** `transform.parent`: none for a root object of the scene. */
  function SceneParent(a: Address): Option<Address>
  {
    if |a| <= 1 then None else Some(a[..|a| - 1])
  }

  /** `IsChildOf`: walks up from `child` looking for `parent`. It finds it
      exactly when `parent` is `child` itself or one of its ancestors. */
  method IsChildOf(child: Address, parent: Address) returns (r: bool)
    requires 1 <= |child| && 1 <= |parent|
    ensures r <==> parent <= child
  {
    var current: Option<Address> := Some(child);
    while current.Some?
      invariant current.Some? ==> 1 <= |current.value| && current.value <= child
      invariant parent <= child <==> current.Some? && parent <= current.value
      decreases if current.Some? then |current.value| else 0
    {
      if current.value == parent {
        return true;
      }
      var c := current.value;
      assert parent <= c ==> parent <= c[..|c| - 1] by {
        if parent <= c {
          assert |parent| < |c|;
          assert parent == c[..|parent|];
        }
      }
      current := SceneParent(c);
    }
    return false;
  }

  // ----- the error list, part by part -----

  function RootErrors(scene: Node, avatarRoot: Option<Address>): seq<ValidationError>
    requires avatarRoot.Some? ==> InScene(scene, avatarRoot.value)
  {
    if avatarRoot.None? then [NoAvatarRoot]
    else if !At(scene, avatarRoot.value).hasDescriptor then [NoAvatarDescriptor]
    else []
  }

  function TargetErrors(avatarRoot: Option<Address>, target: Option<Address>): seq<ValidationError>
  {
    if target.None? then [NoTarget]
    else if avatarRoot.Some? && !(avatarRoot.value <= target.value) then [TargetOutsideAvatar]
    else []
  }

  function MenuErrors(menuName: string): seq<ValidationError>
  {
    if menuName == "" then [NoMenuName] else []
  }

  function ListErrors(vs: seq<ColorVariation>): seq<ValidationError>
  {
    if |vs| == 0 then [NoVariations] else []
  }

  /** The problems of variation number `number`: a missing name, and either
      a missing prefab or a prefab without any renderer. */
  function EntryErrors(number: nat, v: ColorVariation): seq<ValidationError>
  {
    (if v.name == "" then [UnnamedVariation(number)] else [])
    + (if v.prefab.None? then [NoPrefab(number)]
       else if RendererFree(v.prefab.value) then [NoRenderer(number)]
       else [])
  }

  /** The problems of the first `n` variations, in list order. */
  function VariationErrors(vs: seq<ColorVariation>, n: nat): (es: seq<ValidationError>)
    requires n <= |vs|
    ensures forall k :: 0 <= k < |es| ==> Numbered(es[k]) && 1 <= es[k].number <= n
  {
    if n == 0 then [] else VariationErrors(vs, n - 1) + EntryErrors(n, vs[n - 1])
  }

  /** How many of the first `n` variations carry the name `name`. */
  function Occurrences(vs: seq<ColorVariation>, name: string, n: nat): nat
    requires n <= |vs|
  {
    if n == 0 then 0 else Occurrences(vs, name, n - 1) + (if vs[n - 1].name == name then 1 else 0)
  }

  /** The distinct non-empty names of the first `n` variations in order of
      first occurrence: the keys `GroupBy` forms over the named variations. */
  function NameKeys(vs: seq<ColorVariation>, n: nat): seq<string>
    requires n <= |vs|
  {
    if n == 0 then []
    else
      var ks := NameKeys(vs, n - 1);
      var name := vs[n - 1].name;
      if name != "" && name !in ks then ks + [name] else ks
  }

  /** The keys of `ks` shared by more than one variation, in the order of
      `ks`. */
  function SharedKeys(ks: seq<string>, vs: seq<ColorVariation>): seq<string>
  {
    if ks == [] then []
    else (if Occurrences(vs, ks[0], |vs|) > 1 then [ks[0]] else []) + SharedKeys(ks[1..], vs)
  }

  /** The names the duplicate check reports, in order of first occurrence. */
  function DuplicateNames(vs: seq<ColorVariation>): seq<string>
  {
    SharedKeys(NameKeys(vs, |vs|), vs)
  }

  function DuplicateErrors(names: seq<string>): (es: seq<ValidationError>)
    ensures |es| == |names|
  {
    seq(|names|, k requires 0 <= k < |names| => DuplicateName(names[k]))
  }

  /** A problem of one variation, carrying its number. */
  predicate Numbered(e: ValidationError)
  {
    e.UnnamedVariation? || e.NoPrefab? || e.NoRenderer?
  }

  /** The problems found before the variations are looked at: the avatar,
      the object to dress, the menu name and the list length. */
  function SettingsErrors(scene: Node, avatarRoot: Option<Address>, target: Option<Address>,
                          menuName: string, vs: seq<ColorVariation>): (es: seq<ValidationError>)
    requires ObjectsInScene(scene, avatarRoot, target)
    ensures forall e :: e in es ==> !Numbered(e) && !e.DuplicateName?
    ensures es == [] <==>
      && avatarRoot.Some? && At(scene, avatarRoot.value).hasDescriptor
      && target.Some? && avatarRoot.value <= target.value
      && menuName != "" && |vs| > 0
  {
    RootErrors(scene, avatarRoot) + TargetErrors(avatarRoot, target) + MenuErrors(menuName) + ListErrors(vs)
  }

  /** `GetValidationErrors`, as a value: the avatar checks, the target
      checks, the menu name, the list length, each variation in order, then
      the duplicate names. */
  function ValidationErrors(scene: Node, avatarRoot: Option<Address>, target: Option<Address>,
                            menuName: string, vs: seq<ColorVariation>): seq<ValidationError>
    requires ObjectsInScene(scene, avatarRoot, target)
  {
    SettingsErrors(scene, avatarRoot, target, menuName, vs)
    + VariationErrors(vs, |vs|) + DuplicateErrors(DuplicateNames(vs))
  }

  // ----- what the list means -----

  predicate Distinct<T(==)>(s: seq<T>)
  {
    forall p, q :: 0 <= p < q < |s| ==> s[p] != s[q]
  }

  /** Two different variations carry the non-empty name `name`. */
  predicate Duplicated(vs: seq<ColorVariation>, name: string)
  {
    name != "" && exists i, j :: 0 <= i < j < |vs| && vs[i].name == name && vs[j].name == name
  }

  /** Variation number `e.number` has the problem `e` names. */
  predicate Lacks(vs: seq<ColorVariation>, e: ValidationError)
    requires Numbered(e)
  {
    1 <= e.number <= |vs| &&
    match e
    case UnnamedVariation(k) => vs[k - 1].name == ""
    case NoPrefab(k) => vs[k - 1].prefab.None?
    case NoRenderer(k) => vs[k - 1].prefab.Some? && RendererFree(vs[k - 1].prefab.value)
  }

  /** The configuration has the problem `e` of the avatar, the object to
      dress, the menu name or the list length. */
  predicate SettingRaised(e: ValidationError, scene: Node, avatarRoot: Option<Address>, target: Option<Address>,
                          menuName: string, vs: seq<ColorVariation>)
    requires ObjectsInScene(scene, avatarRoot, target)
  {
    match e
    case NoAvatarRoot => avatarRoot.None?
    case NoAvatarDescriptor => avatarRoot.Some? && !At(scene, avatarRoot.value).hasDescriptor
    case NoTarget => target.None?
    case TargetOutsideAvatar => target.Some? && avatarRoot.Some? && !(avatarRoot.value <= target.value)
    case NoMenuName => menuName == ""
    case NoVariations => |vs| == 0
    case _ => false
  }

  /** The condition under which the check reports `e`, read off the
      configuration alone. */
  ghost predicate Raised(e: ValidationError, scene: Node, avatarRoot: Option<Address>, target: Option<Address>,
                         menuName: string, vs: seq<ColorVariation>)
    requires ObjectsInScene(scene, avatarRoot, target)
  {
    if Numbered(e) then Lacks(vs, e)
    else if e.DuplicateName? then Duplicated(vs, e.name)
    else SettingRaised(e, scene, avatarRoot, target, menuName, vs)
  }

  /** A variation with a name and a prefab holding a renderer. */
  predicate Complete(v: ColorVariation)
  {
    v.name != "" && v.prefab.Some? && !RendererFree(v.prefab.value)
  }

  /** A configuration the check accepts: an avatar root with an avatar
      descriptor, an object to dress inside it, a menu name, at least one
      variation, every variation named and given a prefab with a renderer,
      and no name used twice. */
  predicate Accepted(scene: Node, avatarRoot: Option<Address>, target: Option<Address>,
                     menuName: string, vs: seq<ColorVariation>)
    requires ObjectsInScene(scene, avatarRoot, target)
  {
    && avatarRoot.Some? && At(scene, avatarRoot.value).hasDescriptor
    && target.Some? && avatarRoot.value <= target.value
    && menuName != ""
    && |vs| > 0
    && AllComplete(vs)
    && NamesDistinct(vs)
  }

  predicate AllComplete(vs: seq<ColorVariation>)
  {
    forall i :: 0 <= i < |vs| ==> Complete(vs[i])
  }

  /** No two variations share a name. */
  predicate NamesDistinct(vs: seq<ColorVariation>)
  {
    forall i, j :: 0 <= i < j < |vs| ==> vs[i].name != vs[j].name
  }

  /** No non-empty name is carried by two variations. */
  ghost predicate NoneDuplicated(vs: seq<ColorVariation>)
  {
    forall name :: !Duplicated(vs, name)
  }

  /** The problems of the variations come in list order. */
  lemma {:induction false} VariationErrorsOrdered(vs: seq<ColorVariation>, n: nat)
    requires n <= |vs|
    ensures forall p, q :: 0 <= p < q < |VariationErrors(vs, n)| ==>
              VariationErrors(vs, n)[p].number <= VariationErrors(vs, n)[q].number
  {
    if n > 0 {
      VariationErrorsOrdered(vs, n - 1);
      var head: seq<ValidationError>, last: seq<ValidationError> := VariationErrors(vs, n - 1), EntryErrors(n, vs[n - 1]);
      forall p, q | 0 <= p < q < |head + last|
        ensures (head + last)[p].number <= (head + last)[q].number
      {
        if q >= |head| {
          assert (head + last)[q] in last;
          if p < |head| {
            assert (head + last)[p] in head;
          }
        }
      }
    }
  }

  /** The checks of one variation report a problem exactly when it has it. */
  lemma EntryErrorsExact(number: nat, v: ColorVariation, k: nat)
    ensures UnnamedVariation(k) in EntryErrors(number, v) <==> k == number && v.name == ""
    ensures NoPrefab(k) in EntryErrors(number, v) <==> k == number && v.prefab.None?
    ensures NoRenderer(k) in EntryErrors(number, v)
        <==> k == number && v.prefab.Some? && RendererFree(v.prefab.value)
  {
    var named: seq<ValidationError> := if v.name == "" then [UnnamedVariation(number)] else [];
    var found: seq<ValidationError> :=
      if v.prefab.None? then [NoPrefab(number)]
      else if RendererFree(v.prefab.value) then [NoRenderer(number)]
      else [];
    assert forall x :: x in named + found <==> x in named || x in found;
  }

  /** Each problem of variation number `k` is reported exactly when that
      variation has it. */
  lemma {:induction false} VariationErrorsExact(vs: seq<ColorVariation>, n: nat, k: nat)
    requires n <= |vs|
    ensures UnnamedVariation(k) in VariationErrors(vs, n) <==> 1 <= k <= n && vs[k - 1].name == ""
    ensures NoPrefab(k) in VariationErrors(vs, n) <==> 1 <= k <= n && vs[k - 1].prefab.None?
    ensures NoRenderer(k) in VariationErrors(vs, n)
        <==> 1 <= k <= n && vs[k - 1].prefab.Some? && RendererFree(vs[k - 1].prefab.value)
  {
    if n > 0 {
      VariationErrorsExact(vs, n - 1, k);
      EntryErrorsExact(n, vs[n - 1], k);
      var head: seq<ValidationError>, last: seq<ValidationError> := VariationErrors(vs, n - 1), EntryErrors(n, vs[n - 1]);
      assert forall x :: x in head + last <==> x in head || x in last;
      if k == n {
        assert vs[k - 1] == vs[n - 1];
      } else {
        assert NoRenderer(k) !in last && NoPrefab(k) !in last && UnnamedVariation(k) !in last;
      }
    }
  }

  /** The duplicate check reports exactly the names it is given. */
  lemma DuplicateErrorsExact(names: seq<string>, e: ValidationError)
    ensures e in DuplicateErrors(names) <==> e.DuplicateName? && e.name in names
  {
    if e.DuplicateName? && e.name in names {
      var k :| 0 <= k < |names| && names[k] == e.name;
      assert DuplicateErrors(names)[k] == e;
    }
  }

  /** No problem of a variation is reported twice. */
  lemma {:induction false} VariationErrorsDistinct(vs: seq<ColorVariation>, n: nat)
    requires n <= |vs|
    ensures Distinct(VariationErrors(vs, n))
  {
    if n > 0 {
      VariationErrorsDistinct(vs, n - 1);
      var head: seq<ValidationError>, last: seq<ValidationError> := VariationErrors(vs, n - 1), EntryErrors(n, vs[n - 1]);
      forall x | x in head
        ensures x !in last
      {
        assert x.number <= n - 1;
      }
      DistinctConcat(head, last);
    }
  }

  lemma DistinctConcat<T>(a: seq<T>, b: seq<T>)
    requires Distinct(a) && Distinct(b)
    requires forall x :: x in a ==> x !in b
    ensures Distinct(a + b)
  {
    forall p, q | 0 <= p < q < |a + b|
      ensures (a + b)[p] != (a + b)[q]
    {
      if p < |a| && q >= |a| {
        assert (a + b)[p] in a && (a + b)[q] in b;
      }
    }
  }

  /** Among the first `n` variations, a name occurs at all exactly when some
      variation carries it, and at least twice exactly when two different
      variations carry it. */
  lemma {:induction false} OccurrencesTwice(vs: seq<ColorVariation>, name: string, n: nat)
    requires n <= |vs|
    ensures Occurrences(vs, name, n) > 0 <==> exists i :: 0 <= i < n && vs[i].name == name
    ensures Occurrences(vs, name, n) > 1 <==>
      exists i, j :: 0 <= i < j < n && vs[i].name == name && vs[j].name == name
  {
    if n > 0 {
      OccurrencesTwice(vs, name, n - 1);
      if vs[n - 1].name == name {
        if Occurrences(vs, name, n - 1) > 0 {
          var i :| 0 <= i < n - 1 && vs[i].name == name;
          assert 0 <= i < n - 1 < n && vs[i].name == name && vs[n - 1].name == name;
        }
        if exists i, j :: 0 <= i < j < n && vs[i].name == name && vs[j].name == name {
          var i, j :| 0 <= i < j < n && vs[i].name == name && vs[j].name == name;
          assert 0 <= i < n - 1 && vs[i].name == name;
        }
      } else {
        if exists i :: 0 <= i < n && vs[i].name == name {
          var i :| 0 <= i < n && vs[i].name == name;
          assert i < n - 1;
        }
        if exists i, j :: 0 <= i < j < n && vs[i].name == name && vs[j].name == name {
          var i, j :| 0 <= i < j < n && vs[i].name == name && vs[j].name == name;
          assert j < n - 1;
        }
      }
    }
  }

  /** The keys are the non-empty names of the first `n` variations, each
      once. */
  lemma {:induction false} NameKeysExact(vs: seq<ColorVariation>, n: nat)
    requires n <= |vs|
    ensures forall k :: k in NameKeys(vs, n) ==> k != "" && exists i :: 0 <= i < n && vs[i].name == k
    ensures forall i :: 0 <= i < n && vs[i].name != "" ==> vs[i].name in NameKeys(vs, n)
    ensures Distinct(NameKeys(vs, n))
  {
    if n > 0 {
      NameKeysExact(vs, n - 1);
      var ks, name := NameKeys(vs, n - 1), vs[n - 1].name;
      forall k | k in NameKeys(vs, n)
        ensures k != "" && exists i :: 0 <= i < n && vs[i].name == k
      {
        if k in ks {
          var i :| 0 <= i < n - 1 && vs[i].name == k;
          assert 0 <= i < n;
        } else {
          assert vs[n - 1].name == k;
        }
      }
      if name != "" && name !in ks {
        DistinctConcat(ks, [name]);
      }
    }
  }

  /** Filtering keeps exactly the keys more than one variation carries. */
  lemma {:induction false} SharedKeysExact(ks: seq<string>, vs: seq<ColorVariation>)
    ensures forall x :: x in SharedKeys(ks, vs) <==> x in ks && Occurrences(vs, x, |vs|) > 1
  {
    if ks != [] {
      SharedKeysExact(ks[1..], vs);
      assert ks == [ks[0]] + ks[1..];
    }
  }

  /** Filtering keeps distinct keys distinct. */
  lemma {:induction false} SharedKeysDistinct(ks: seq<string>, vs: seq<ColorVariation>)
    requires Distinct(ks)
    ensures Distinct(SharedKeys(ks, vs))
  {
    if ks != [] {
      assert Distinct(ks[1..]) by {
        forall p, q | 0 <= p < q < |ks[1..]|
          ensures ks[1..][p] != ks[1..][q]
        {
          assert ks[1..][p] == ks[p + 1] && ks[1..][q] == ks[q + 1];
        }
      }
      SharedKeysDistinct(ks[1..], vs);
      SharedKeysExact(ks[1..], vs);
      var head := if Occurrences(vs, ks[0], |vs|) > 1 then [ks[0]] else [];
      forall q | 0 <= q < |ks[1..]|
        ensures ks[1..][q] != ks[0]
      {
        assert ks[1..][q] == ks[q + 1];
      }
      DistinctConcat(head, SharedKeys(ks[1..], vs));
    }
  }

  /** The duplicate check reports exactly the non-empty names carried by two
      different variations, each once. */
  lemma DuplicateNamesExact(vs: seq<ColorVariation>)
    ensures forall name :: name in DuplicateNames(vs) <==> Duplicated(vs, name)
    ensures Distinct(DuplicateNames(vs))
  {
    var ks := NameKeys(vs, |vs|);
    NameKeysExact(vs, |vs|);
    SharedKeysExact(ks, vs);
    SharedKeysDistinct(ks, vs);
    forall name
      ensures name in DuplicateNames(vs) <==> Duplicated(vs, name)
    {
      OccurrencesTwice(vs, name, |vs|);
    }
  }

  /** A problem of the avatar, the object to dress, the menu name or the
      list length is reported exactly when the configuration has it. */
  lemma SettingsErrorsExact(scene: Node, avatarRoot: Option<Address>, target: Option<Address>,
                            menuName: string, vs: seq<ColorVariation>, e: ValidationError)
    requires ObjectsInScene(scene, avatarRoot, target)
    requires !Numbered(e) && !e.DuplicateName?
    ensures e in SettingsErrors(scene, avatarRoot, target, menuName, vs)
        <==> SettingRaised(e, scene, avatarRoot, target, menuName, vs)
  {
    var r, t, m, l := RootErrors(scene, avatarRoot), TargetErrors(avatarRoot, target), MenuErrors(menuName), ListErrors(vs);
    assert e in r + t + m + l <==> e in r || e in t || e in m || e in l;
  }

  lemma InParts(e: ValidationError, s: seq<ValidationError>, v: seq<ValidationError>, d: seq<ValidationError>)
    ensures e in s + v + d <==> e in s || e in v || e in d
  {
  }

  /** Every error in the list is one the configuration raises, and every
      error the configuration raises is in the list. */
  lemma ErrorsExact(scene: Node, avatarRoot: Option<Address>, target: Option<Address>,
                    menuName: string, vs: seq<ColorVariation>, e: ValidationError)
    requires ObjectsInScene(scene, avatarRoot, target)
    ensures e in ValidationErrors(scene, avatarRoot, target, menuName, vs)
        <==> Raised(e, scene, avatarRoot, target, menuName, vs)
  {
    var s, v := SettingsErrors(scene, avatarRoot, target, menuName, vs), VariationErrors(vs, |vs|);
    var names := DuplicateNames(vs);
    var d := DuplicateErrors(names);
    InParts(e, s, v, d);
    DuplicateErrorsExact(names, e);
    if Numbered(e) {
      VariationErrorsExact(vs, |vs|, e.number);
      assert e !in s;
    } else {
      assert forall k :: 0 <= k < |v| ==> v[k] != e;
      if e.DuplicateName? {
        DuplicateNamesExact(vs);
        assert e !in s;
      } else {
        SettingsErrorsExact(scene, avatarRoot, target, menuName, vs, e);
      }
    }
  }

  /** The checks before the variations report each problem at most once. */
  lemma SettingsErrorsDistinct(scene: Node, avatarRoot: Option<Address>, target: Option<Address>,
                               menuName: string, vs: seq<ColorVariation>)
    requires ObjectsInScene(scene, avatarRoot, target)
    ensures Distinct(SettingsErrors(scene, avatarRoot, target, menuName, vs))
  {
    var r, t, m, l := RootErrors(scene, avatarRoot), TargetErrors(avatarRoot, target), MenuErrors(menuName), ListErrors(vs);
    DistinctConcat(r, t);
    DistinctConcat(r + t, m);
    DistinctConcat(r + t + m, l);
  }

  /** The duplicate check reports each name once. */
  lemma DuplicateErrorsDistinct(names: seq<string>)
    requires Distinct(names)
    ensures Distinct(DuplicateErrors(names))
  {
    var d := DuplicateErrors(names);
    forall p, q | 0 <= p < q < |d|
      ensures d[p] != d[q]
    {
      assert d[p].name == names[p] && d[q].name == names[q];
    }
  }

  /** No error is reported twice; in particular each duplicated name is
      reported once. */
  lemma ErrorsOnce(scene: Node, avatarRoot: Option<Address>, target: Option<Address>,
                   menuName: string, vs: seq<ColorVariation>)
    requires ObjectsInScene(scene, avatarRoot, target)
    ensures Distinct(ValidationErrors(scene, avatarRoot, target, menuName, vs))
  {
    var s, v := SettingsErrors(scene, avatarRoot, target, menuName, vs), VariationErrors(vs, |vs|);
    var d := DuplicateErrors(DuplicateNames(vs));
    SettingsErrorsDistinct(scene, avatarRoot, target, menuName, vs);
    VariationErrorsDistinct(vs, |vs|);
    DuplicateNamesExact(vs);
    DuplicateErrorsDistinct(DuplicateNames(vs));
    forall x | x in d
      ensures x.DuplicateName?
    {
      DuplicateErrorsExact(DuplicateNames(vs), x);
    }
    DistinctConcat(s, v);
    DistinctConcat(s + v, d);
  }

  /** The variations raise no problem exactly when each is complete. */
  lemma {:induction false} VariationErrorsNone(vs: seq<ColorVariation>, n: nat)
    requires n <= |vs|
    ensures VariationErrors(vs, n) == [] <==> AllComplete(vs[..n])
  {
    if n > 0 {
      VariationErrorsNone(vs, n - 1);
      assert vs[..n] == vs[..n - 1] + [vs[n - 1]];
      assert |VariationErrors(vs, n)| == |VariationErrors(vs, n - 1)| + |EntryErrors(n, vs[n - 1])|;
    }
  }

  /** With every variation named, no name is duplicated exactly when the
      names are pairwise different. */
  lemma NamesDifferent(vs: seq<ColorVariation>)
    requires AllComplete(vs)
    ensures NoneDuplicated(vs) <==> NamesDistinct(vs)
  {
    if NoneDuplicated(vs) {
      forall i, j | 0 <= i < j < |vs|
        ensures vs[i].name != vs[j].name
      {
        assert !Duplicated(vs, vs[i].name);
      }
    }
  }

  /** The duplicate check finds nothing exactly when no name is duplicated. */
  lemma NoDuplicateNames(vs: seq<ColorVariation>)
    ensures DuplicateNames(vs) == [] <==> NoneDuplicated(vs)
  {
    DuplicateNamesExact(vs);
    if DuplicateNames(vs) != [] {
      assert DuplicateNames(vs)[0] in DuplicateNames(vs);
    }
  }

  /** The list is empty exactly when the configuration is accepted. */
  lemma NoErrorsIffAccepted(scene: Node, avatarRoot: Option<Address>, target: Option<Address>,
                            menuName: string, vs: seq<ColorVariation>)
    requires ObjectsInScene(scene, avatarRoot, target)
    ensures ValidationErrors(scene, avatarRoot, target, menuName, vs) == []
        <==> Accepted(scene, avatarRoot, target, menuName, vs)
  {
    var s, v := SettingsErrors(scene, avatarRoot, target, menuName, vs), VariationErrors(vs, |vs|);
    var names := DuplicateNames(vs);
    VariationErrorsNone(vs, |vs|);
    assert vs[..|vs|] == vs;
    NoDuplicateNames(vs);
    if AllComplete(vs) {
      NamesDifferent(vs);
    }
    assert |s + v + DuplicateErrors(names)| == |s| + |v| + |names|;
  }

  /** The checks of the avatar root and of the object to dress. */
  method CheckObjects(scene: Node, avatarRoot: Option<Address>, targetObject: Option<Address>)
      returns (errors: seq<ValidationError>)
    requires ObjectsInScene(scene, avatarRoot, targetObject)
    ensures errors == RootErrors(scene, avatarRoot) + TargetErrors(avatarRoot, targetObject)
  {
    errors := [];
    if avatarRoot.None? {
      errors := errors + [NoAvatarRoot];
    } else if !At(scene, avatarRoot.value).hasDescriptor {
      errors := errors + [NoAvatarDescriptor];
    }
    if targetObject.None? {
      errors := errors + [NoTarget];
    } else if avatarRoot.Some? {
      var inside := IsChildOf(targetObject.value, avatarRoot.value);
      if !inside {
        errors := errors + [TargetOutsideAvatar];
      }
    }
  }

  /** The checks of the avatar root, the object to dress, the menu name and
      the list length. */
  method CheckSettings(scene: Node, avatarRoot: Option<Address>, targetObject: Option<Address>,
                       menuName: string, variations: seq<ColorVariation>)
      returns (errors: seq<ValidationError>)
    requires ObjectsInScene(scene, avatarRoot, targetObject)
    ensures errors == SettingsErrors(scene, avatarRoot, targetObject, menuName, variations)
  {
    errors := CheckObjects(scene, avatarRoot, targetObject);
    if menuName == "" {
      errors := errors + [NoMenuName];
    }
    if |variations| == 0 {
      errors := errors + [NoVariations];
    }
  }

  /** The checks of variation number `number`; the renderer search is
      `GetComponentsInChildren<Renderer>(true)` on the prefab. */
  method CheckVariation(number: nat, v: ColorVariation) returns (errors: seq<ValidationError>)
    ensures errors == EntryErrors(number, v)
  {
    errors := [];
    if v.name == "" {
      errors := errors + [UnnamedVariation(number)];
    }
    if v.prefab.None? {
      errors := errors + [NoPrefab(number)];
    } else {
      var renderers := Renderers(v.prefab.value);
      RendererFreeIff(v.prefab.value);
      if |renderers| == 0 {
        errors := errors + [NoRenderer(number)];
      }
    }
  }

  /** The loop over the variations, appending to `errors`. */
  method CheckVariations(errors: seq<ValidationError>, variations: seq<ColorVariation>)
      returns (result: seq<ValidationError>)
    ensures result == errors + VariationErrors(variations, |variations|)
  {
    result := errors;
    for i := 0 to |variations|
      invariant result == errors + VariationErrors(variations, i)
    {
      var entry := CheckVariation(i + 1, variations[i]);
      result := result + entry;
    }
  }

  /** The loop over the duplicated names, appending to `errors`. */
  method ReportDuplicates(errors: seq<ValidationError>, duplicateNames: seq<string>)
      returns (result: seq<ValidationError>)
    ensures result == errors + DuplicateErrors(duplicateNames)
  {
    result := errors;
    for k := 0 to |duplicateNames|
      invariant result == errors + DuplicateErrors(duplicateNames[..k])
    {
      assert DuplicateErrors(duplicateNames[..k + 1])
          == DuplicateErrors(duplicateNames[..k]) + [DuplicateName(duplicateNames[k])];
      result := result + [DuplicateName(duplicateNames[k])];
    }
    assert duplicateNames[..|duplicateNames|] == duplicateNames;
  }

  /** `GetValidationErrors`: builds the list step by step; by `ErrorsExact`,
      `ErrorsOnce` and `NoErrorsIffAccepted` it reports exactly the problems
      of the configuration, each once, and is empty exactly when the
      configuration is acceptable. */
  method GetValidationErrors(scene: Node, avatarRoot: Option<Address>, targetObject: Option<Address>,
                             menuName: string, variations: seq<ColorVariation>)
      returns (errors: seq<ValidationError>)
    requires ObjectsInScene(scene, avatarRoot, targetObject)
    ensures errors == ValidationErrors(scene, avatarRoot, targetObject, menuName, variations)
  {
    errors := CheckSettings(scene, avatarRoot, targetObject, menuName, variations);
    errors := CheckVariations(errors, variations);
    var duplicateNames := DuplicateNames(variations);
    errors := ReportDuplicates(errors, duplicateNames);
  }
}

/**
 * Smart bones: an action's pose-bone curves name the bones it animates, and
 * each of those bones gets an action constraint, named after the control bone
 * and the action, that plays the action back as the control bone moves.
 * Deleting a smart bone removes those constraints again.
 */
module SmartBones {
  import opened Wrappers
  import opened Text
  import opened Scene

  // ---------------------------------------------------------------------
  // Scanning an action for the bones it animates (find_action_bones)
  // ---------------------------------------------------------------------

  /** Only curves on pose bones are scanned, not armature or object curves. */
  predicate IsPoseBonePath(path: string) {
    Contains(path, "pose.bones")
  }

  /** The scan fails where a pose-bone path has no quoted bone name (`findall(...)[0]` raises). */
  datatype ScanError = UnquotedBonePath(index: nat)

  /**
   * The bones the curves `paths` animate, in the order the loop of
   * find_action_bones appends them.
   */
  function ScanBones(paths: seq<string>): Result<seq<string>, ScanError>
    decreases |paths|
  {
    if |paths| == 0 then Ok([])
    else match ScanBones(paths[..|paths| - 1])
      case Err(e) => Err(e)
      case Ok(bones) =>
        var path := paths[|paths| - 1];
        if !IsPoseBonePath(path) then Ok(bones)
        else match FirstQuoted(path)
          case None => Err(UnquotedBonePath(|paths| - 1))
          case Some(bone) => Ok(if bone in bones then bones else bones + [bone])
  }

  /** Curve `i` is a pose-bone curve whose first quoted name is `bone`. */
  ghost predicate NamesBone(paths: seq<string>, i: int, bone: string) {
    0 <= i < |paths| && IsPoseBonePath(paths[i]) && FirstQuoted(paths[i]) == Some(bone)
  }

  /** Some curve before index `n` names `bone`. */
  ghost predicate NamedBefore(paths: seq<string>, n: int, bone: string) {
    exists i :: 0 <= i < n && NamesBone(paths, i, bone)
  }

  /** Curve `i` is a pose-bone curve without a quoted name. */
  predicate Unquoted(paths: seq<string>, i: int) {
    0 <= i < |paths| && IsPoseBonePath(paths[i]) && FirstQuoted(paths[i]).None?
  }

  predicate NoDuplicates<T(==)>(s: seq<T>) {
    forall i, j | 0 <= i < j < |s| :: s[i] != s[j]
  }

  lemma NamedBeforeMonotone(paths: seq<string>, m: int, n: int, bone: string)
    requires m <= n && NamedBefore(paths, m, bone)
    ensures NamedBefore(paths, n, bone)
  {
    var i :| 0 <= i < m && NamesBone(paths, i, bone);
    assert 0 <= i < n && NamesBone(paths, i, bone);
  }

  lemma NamesBonePrefix(paths: seq<string>, k: int, i: int, bone: string)
    requires 0 <= i < k <= |paths|
    ensures NamesBone(paths[..k], i, bone) <==> NamesBone(paths, i, bone)
  {
    assert paths[..k][i] == paths[i];
  }

  /**
   * What find_action_bones promises. The scan fails exactly when some
   * pose-bone path has no quoted name, and it names the first such path.
   * Otherwise the list has no duplicates, holds the first quoted name of every
   * pose-bone path and nothing else, and lists the bones in the order in which
   * they are first named.
   */
  lemma ScanBonesSpec(paths: seq<string>)
    ensures ScanBones(paths).Err? <==> exists i :: Unquoted(paths, i)
    ensures ScanBones(paths).Err? ==>
              var k := ScanBones(paths).error.index;
              Unquoted(paths, k) && forall i | 0 <= i < k :: !Unquoted(paths, i)
    ensures ScanBones(paths).Ok? ==>
              var bones := ScanBones(paths).value;
              && NoDuplicates(bones)
              && OnlyNamed(paths, bones)
              && AllListed(paths, bones)
              && InFirstSeenOrder(paths, bones)
  {
    ScanErrorSpec(paths);
    ScanCoverage(paths);
    ScanOrder(paths);
  }

  /** What holds of a path list holds of its prefix for the indices they share. */
  lemma PrefixAgrees(paths: seq<string>, n: nat)
    requires n <= |paths|
    ensures forall i, bone | 0 <= i < n :: NamesBone(paths[..n], i, bone) <==> NamesBone(paths, i, bone)
    ensures forall i | 0 <= i < n :: Unquoted(paths[..n], i) <==> Unquoted(paths, i)
    ensures forall m, bone | 0 <= m <= n :: NamedBefore(paths[..n], m, bone) <==> NamedBefore(paths, m, bone)
  {
    var init := paths[..n];
    forall i, bone | 0 <= i < n
      ensures NamesBone(init, i, bone) <==> NamesBone(paths, i, bone)
    {
      NamesBonePrefix(paths, n, i, bone);
    }
    forall i | 0 <= i < n
      ensures Unquoted(init, i) <==> Unquoted(paths, i)
    {
      assert init[i] == paths[i];
    }
    forall m, bone | 0 <= m <= n
      ensures NamedBefore(init, m, bone) <==> NamedBefore(paths, m, bone)
    {
      if NamedBefore(init, m, bone) {
        var i :| 0 <= i < m && NamesBone(init, i, bone);
        assert NamesBone(paths, i, bone);
      }
      if NamedBefore(paths, m, bone) {
        var i :| 0 <= i < m && NamesBone(paths, i, bone);
        assert NamesBone(init, i, bone);
      }
    }
  }

  lemma {:induction false} ScanErrorSpec(paths: seq<string>)
    ensures ScanBones(paths).Err? <==> exists i :: Unquoted(paths, i)
    ensures ScanBones(paths).Err? ==>
              var k := ScanBones(paths).error.index;
              Unquoted(paths, k) && forall i | 0 <= i < k :: !Unquoted(paths, i)
    decreases |paths|
  {
    if |paths| == 0 {
      return;
    }
    var n := |paths| - 1;
    var init := paths[..n];
    ScanErrorSpec(init);
    PrefixAgrees(paths, n);
    match ScanBones(init)
    case Err(e) =>
      assert ScanBones(paths) == Err(e);
      var i :| Unquoted(init, i);
      assert Unquoted(paths, i);
      assert Unquoted(paths, e.index);
      forall i | 0 <= i < e.index ensures !Unquoted(paths, i) {
        assert !Unquoted(init, i);
      }
    case Ok(bones) =>
      assert forall i | 0 <= i < n :: !Unquoted(paths, i);
      if ScanBones(paths).Err? {
        assert Unquoted(paths, n);
      } else {
        assert !Unquoted(paths, n);
        assert forall i | 0 <= i < |paths| :: !Unquoted(paths, i);
      }
  }

  /** Every listed bone is named by some curve. */
  ghost predicate OnlyNamed(paths: seq<string>, bones: seq<string>) {
    forall k | 0 <= k < |bones| :: NamedBefore(paths, |paths|, bones[k])
  }

  /** Every bone some curve names is listed. */
  ghost predicate AllListed(paths: seq<string>, bones: seq<string>) {
    forall i, bone | NamesBone(paths, i, bone) :: bone in bones
  }

  lemma {:induction false} ScanCoverage(paths: seq<string>)
    ensures ScanBones(paths).Ok? ==>
              var bones := ScanBones(paths).value;
              NoDuplicates(bones) && OnlyNamed(paths, bones) && AllListed(paths, bones)
    decreases |paths|
  {
    if |paths| == 0 || ScanBones(paths).Err? {
      return;
    }
    var n := |paths| - 1;
    ScanCoverage(paths[..n]);
    var bones := ScanBones(paths[..n]).value;
    var path := paths[n];
    if !IsPoseBonePath(path) {
      CoverageStep(paths, bones, bones, None);
    } else {
      var bone := FirstQuoted(path).value;
      CoverageStep(paths, bones, if bone in bones then bones else bones + [bone], Some(bone));
    }
  }

  /** One round of the scan loop keeps the list duplicate-free, sound and complete. */
  lemma CoverageStep(paths: seq<string>, bones: seq<string>, bones': seq<string>, named: Option<string>)
    requires |paths| > 0
    requires var n := |paths| - 1;
             NoDuplicates(bones) && OnlyNamed(paths[..n], bones) && AllListed(paths[..n], bones)
    requires named.None? ==> !IsPoseBonePath(paths[|paths| - 1]) && bones' == bones
    requires named.Some? ==> NamesBone(paths, |paths| - 1, named.value)
                             && bones' == if named.value in bones then bones else bones + [named.value]
    ensures NoDuplicates(bones') && OnlyNamed(paths, bones') && AllListed(paths, bones')
  {
    OnlyNamedStep(paths, bones, bones', named);
    AllListedStep(paths, bones, bones', named);
  }

  lemma OnlyNamedStep(paths: seq<string>, bones: seq<string>, bones': seq<string>, named: Option<string>)
    requires |paths| > 0 && OnlyNamed(paths[..|paths| - 1], bones)
    requires named.None? ==> bones' == bones
    requires named.Some? ==> NamesBone(paths, |paths| - 1, named.value)
                             && bones' == if named.value in bones then bones else bones + [named.value]
    ensures OnlyNamed(paths, bones')
  {
    var n := |paths| - 1;
    forall k | 0 <= k < |bones'| ensures NamedBefore(paths, |paths|, bones'[k]) {
      if k < |bones| {
        assert bones'[k] == bones[k];
        NamedBeforeFromPrefix(paths, n, n, bones[k]);
        NamedBeforeMonotone(paths, n, |paths|, bones[k]);
      } else {
        assert NamesBone(paths, n, bones'[k]);
      }
    }
  }

  lemma AllListedStep(paths: seq<string>, bones: seq<string>, bones': seq<string>, named: Option<string>)
    requires |paths| > 0 && AllListed(paths[..|paths| - 1], bones)
    requires named.None? ==> !IsPoseBonePath(paths[|paths| - 1]) && bones' == bones
    requires named.Some? ==> NamesBone(paths, |paths| - 1, named.value)
                             && bones' == if named.value in bones then bones else bones + [named.value]
    ensures AllListed(paths, bones')
  {
    var n := |paths| - 1;
    forall i, bone | NamesBone(paths, i, bone) ensures bone in bones' {
      if i < n {
        NamesBonePrefix(paths, n, i, bone);
        assert bone in bones;
      } else {
        assert IsPoseBonePath(paths[n]) && named.Some?;
        assert Some(bone) == FirstQuoted(paths[n]) == Some(named.value);
      }
    }
  }

  /** The bones appear in the order in which the curves first name them. */
  ghost predicate InFirstSeenOrder(paths: seq<string>, bones: seq<string>) {
    forall j, k, i | 0 <= j < k < |bones| && NamesBone(paths, i, bones[k]) :: NamedBefore(paths, i, bones[j])
  }

  lemma {:induction false} ScanOrder(paths: seq<string>)
    ensures ScanBones(paths).Ok? ==> InFirstSeenOrder(paths, ScanBones(paths).value)
    decreases |paths|
  {
    if |paths| == 0 || ScanBones(paths).Err? {
      return;
    }
    var n := |paths| - 1;
    ScanOrder(paths[..n]);
    ScanCoverage(paths[..n]);
    assert forall k | 0 <= k < |ScanBones(paths[..n]).value| :: NamedBefore(paths[..n], n, ScanBones(paths[..n]).value[k]);
    if IsPoseBonePath(paths[n]) {
      ScanOrderStep(paths, ScanBones(paths[..n]).value, FirstQuoted(paths[n]).value);
    } else {
      ScanOrderSkip(paths, ScanBones(paths[..n]).value);
    }
  }

  lemma NamedBeforeFromPrefix(paths: seq<string>, n: nat, m: int, bone: string)
    requires m <= n <= |paths| && NamedBefore(paths[..n], m, bone)
    ensures NamedBefore(paths, m, bone)
  {
    var i :| 0 <= i < m && NamesBone(paths[..n], i, bone);
    NamesBonePrefix(paths, n, i, bone);
  }

  /** The last curve names `bone`; the order of the prefix carries over. */
  lemma ScanOrderStep(paths: seq<string>, bones: seq<string>, bone: string)
    requires |paths| > 0
    requires var n := |paths| - 1; NamesBone(paths, n, bone)
    requires var n := |paths| - 1; InFirstSeenOrder(paths[..n], bones)
    requires var n := |paths| - 1; forall k | 0 <= k < |bones| :: NamedBefore(paths[..n], n, bones[k])
    requires var n := |paths| - 1; forall i, b | NamesBone(paths[..n], i, b) :: b in bones
    ensures InFirstSeenOrder(paths, if bone in bones then bones else bones + [bone])
  {
    var n := |paths| - 1;
    var init := paths[..n];
    var bones' := if bone in bones then bones else bones + [bone];
    forall j, k, i | 0 <= j < k < |bones'| && NamesBone(paths, i, bones'[k])
      ensures NamedBefore(paths, i, bones'[j])
    {
      assert bones'[j] == bones[j];
      if k == |bones| {
        assert bone !in bones && bones'[k] == bone;
        assert i >= n by {
          if i < n {
            NamesBonePrefix(paths, n, i, bone);
          }
        }
        NamedBeforeFromPrefix(paths, n, n, bones[j]);
        NamedBeforeMonotone(paths, n, i, bones[j]);
      } else {
        assert bones'[k] == bones[k];
        if i < n {
          NamesBonePrefix(paths, n, i, bones[k]);
          NamedBeforeFromPrefix(paths, n, i, bones[j]);
        } else {
          // Curve n names a bone already listed: use its first occurrence.
          var i0 :| 0 <= i0 < n && NamesBone(init, i0, bones[k]);
          NamedBeforeFromPrefix(paths, n, i0, bones[j]);
          NamedBeforeMonotone(paths, i0, i, bones[j]);
        }
      }
    }
  }

  /** The last curve names no bone; the order of the prefix carries over. */
  lemma ScanOrderSkip(paths: seq<string>, bones: seq<string>)
    requires |paths| > 0 && !IsPoseBonePath(paths[|paths| - 1])
    requires InFirstSeenOrder(paths[..|paths| - 1], bones)
    ensures InFirstSeenOrder(paths, bones)
  {
    var n := |paths| - 1;
    forall j, k, i | 0 <= j < k < |bones| && NamesBone(paths, i, bones[k])
      ensures NamedBefore(paths, i, bones[j])
    {
      NamesBonePrefix(paths, n, i, bones[k]);
      NamedBeforeFromPrefix(paths, n, i, bones[j]);
    }
  }

  // ---------------------------------------------------------------------
  // Constraints and bones
  // ---------------------------------------------------------------------

  /**
   * A bone constraint, with the fields the add-on sets. Scene objects it
   * refers to (target, space object, action) are held by name.
   */
  datatype Constraint = Constraint(
    kind: string,
    name: string,
    target: string,
    subtarget: string,
    channel: string,
    space: string,
    spaceObject: Option<string>,
    spaceSubtarget: string,
    min: real,
    max: real,
    action: string,
    frameStart: int,
    frameEnd: int)

  /**
   * `constraints.new("ACTION")` followed by the renaming. The host's defaults
   * are placeholders here: every field but the two space-object fields is
   * overwritten before the operator finishes.
   */
  function NewActionConstraint(name: string): (c: Constraint)
    ensures c.kind == "ACTION" && c.name == name && c.spaceObject.None? && c.spaceSubtarget == ""
  {
    Constraint("ACTION", name, "", "", "LOCATION_X", "WORLD", None, "", 0.0, 1.0, "", 0, 20)
  }

  /** The settings of the smart bone tool that add_action_constraint receives. */
  datatype SmartBoneSettings = SmartBoneSettings(
    controlName: string,
    channel: string,
    space: string,
    spaceObjectName: string,
    spaceSubtarget: string,
    transformMin: real,
    transformMax: real,
    actionName: string,
    frameMin: int,
    frameMax: int)

  /**
   * The outcome of the two scene lookups inside the try block of the CUSTOM
   * space case: `spaceObject` is the object found under the configured name
   * (None: the lookup raised), `isArmature` the value of the ARMATURE test on
   * it (None: that lookup raised).
   */
  datatype SpaceProbe = SpaceProbe(spaceObject: Option<string>, isArmature: Option<bool>)

  /** The constraint name derived from the control bone and the action. */
  function ConstraintName(controlName: string, actionName: string): (n: string)
    ensures |n| == 4 + |controlName| + |actionName| && n[..3] == "SB_"
  {
    "SB_" + controlName + "_" + actionName
  }

  /**
   * The name does not tell control and action apart when either holds `_`:
   * two different smart bones then share one constraint, so installing one
   * updates the other and deleting one removes both.
   */
  lemma ConstraintNameAmbiguous(controlName: string, middle: string, actionName: string)
    ensures ConstraintName(controlName + "_" + middle, actionName) == ConstraintName(controlName, middle + "_" + actionName)
  {
  }

  /** The fields driven by the control bone and the action carry the settings. */
  ghost predicate CarriesSettings(c: Constraint, armatureName: string, s: SmartBoneSettings) {
    && c.target == armatureName
    && c.subtarget == s.controlName
    && c.channel == s.channel
    && c.min == s.transformMin
    && c.max == s.transformMax
    && c.action == s.actionName
    && c.frameStart == s.frameMin
    && c.frameEnd == s.frameMax
  }

  /**
   * The field assignments of add_action_constraint on one constraint: target
   * and channel, the space with its fallback to LOCAL when a lookup in the
   * CUSTOM case fails, the range, the action and its frame range.
   */
  function Configure(c: Constraint, armatureName: string, s: SmartBoneSettings, probe: SpaceProbe): (r: Constraint)
    ensures r.kind == c.kind && r.name == c.name
    ensures CarriesSettings(r, armatureName, s)
    ensures s.space != "CUSTOM" ==>
              r.space == s.space && r.spaceObject == c.spaceObject && r.spaceSubtarget == c.spaceSubtarget
    ensures s.space == "CUSTOM" ==> r.space == "CUSTOM" || r.space == "LOCAL"
    ensures s.space == "CUSTOM" && probe.spaceObject.None? ==> r.space == "LOCAL" && r.spaceObject == c.spaceObject
    ensures r.space == "CUSTOM" ==>
              s.space == "CUSTOM" && probe.spaceObject.Some? && (s.spaceObjectName == "" || probe.isArmature.Some?)
    ensures r.spaceObject == c.spaceObject || (s.space == "CUSTOM" && r.spaceObject == probe.spaceObject)
    ensures r.spaceSubtarget == c.spaceSubtarget || (s.spaceSubtarget == r.spaceSubtarget && probe.isArmature == Some(true))
    ensures s.space == "CUSTOM" && probe.spaceObject.Some? && (s.spaceObjectName == "" || probe.isArmature.Some?) ==>
              r.space == "CUSTOM" && r.spaceObject == probe.spaceObject
    ensures s.space == "CUSTOM" && probe.spaceObject.Some? && s.spaceObjectName != "" && probe.isArmature.None? ==>
              r.space == "LOCAL" && r.spaceObject == probe.spaceObject
    ensures s.space == "CUSTOM" && probe.spaceObject.Some? && s.spaceObjectName != "" && probe.isArmature == Some(true) ==>
              r.spaceSubtarget == s.spaceSubtarget
    ensures !(s.space == "CUSTOM" && probe.spaceObject.Some? && s.spaceObjectName != "" && probe.isArmature == Some(true)) ==>
              r.spaceSubtarget == c.spaceSubtarget
  {
    var driven := c.(target := armatureName, subtarget := s.controlName, channel := s.channel, space := s.space);
    var spaced :=
      if s.space != "CUSTOM" then driven
      else match probe.spaceObject
        case None => driven.(space := "LOCAL")
        case Some(o) =>
          var withObject := driven.(spaceObject := Some(o));
          if s.spaceObjectName == "" then withObject
          else match probe.isArmature
            case None => withObject.(space := "LOCAL")
            case Some(true) => withObject.(spaceSubtarget := s.spaceSubtarget)
            case Some(false) => withObject;
    spaced.(min := s.transformMin, max := s.transformMax, action := s.actionName,
            frameStart := s.frameMin, frameEnd := s.frameMax)
  }

  /** Configuring a constraint a second time with the same inputs changes nothing. */
  lemma ConfigureIdempotent(c: Constraint, armatureName: string, s: SmartBoneSettings, probe: SpaceProbe)
    ensures Configure(Configure(c, armatureName, s, probe), armatureName, s, probe) == Configure(c, armatureName, s, probe)
  {
  }

  predicate HasNamed(cs: seq<Constraint>, n: string) {
    exists i | 0 <= i < |cs| :: cs[i].name == n
  }

  /**
   * The constraints of one bone after lines 356-387. When no constraint is
   * called `n`, a new action constraint of that name is appended and
   * configured. When one is, the loop variable of the existence test still
   * refers to the LAST constraint of the bone, and that one is configured,
   * whatever its name.
   */
  function Installed(cs: seq<Constraint>, n: string, armatureName: string,
                     s: SmartBoneSettings, probe: SpaceProbe): (r: seq<Constraint>)
    ensures |r| == if HasNamed(cs, n) then |cs| else |cs| + 1
    ensures forall k | 0 <= k < |r| - 1 :: r[k] == cs[k]
    ensures HasNamed(r, n)
    ensures CarriesSettings(r[|r| - 1], armatureName, s)
    ensures !HasNamed(cs, n) ==> r[|r| - 1].name == n && r[|r| - 1].kind == "ACTION"
    ensures HasNamed(cs, n) ==> r[|r| - 1].name == cs[|cs| - 1].name && r[|r| - 1].kind == cs[|cs| - 1].kind
    ensures r[|r| - 1] == Configure(if HasNamed(cs, n) then cs[|cs| - 1] else NewActionConstraint(n), armatureName, s, probe)
  {
    if HasNamed(cs, n) then
      var r := cs[..|cs| - 1] + [Configure(cs[|cs| - 1], armatureName, s, probe)];
      assert forall i | 0 <= i < |cs| - 1 :: r[i] == cs[i];
      assert exists i | 0 <= i < |r| :: r[i].name == n by {
        var i :| 0 <= i < |cs| && cs[i].name == n;
        assert r[i].name == n;
      }
      r
    else
      var r := cs + [Configure(NewActionConstraint(n), armatureName, s, probe)];
      assert r[|r| - 1].name == n;
      r
  }

  /** Repeating the installation with the same inputs leaves the constraints as they are. */
  lemma InstalledIdempotent(cs: seq<Constraint>, n: string, armatureName: string,
                            s: SmartBoneSettings, probe: SpaceProbe)
    ensures Installed(Installed(cs, n, armatureName, s, probe), n, armatureName, s, probe)
            == Installed(cs, n, armatureName, s, probe)
  {
    var once := Installed(cs, n, armatureName, s, probe);
    var twice := Installed(once, n, armatureName, s, probe);
    var last := |once| - 1;
    var c := if HasNamed(cs, n) then cs[|cs| - 1] else NewActionConstraint(n);
    assert once[last] == Configure(c, armatureName, s, probe);
    ConfigureIdempotent(c, armatureName, s, probe);
    assert twice[last] == once[last];
  }

  /** The number of constraints called `n`. */
  function CountNamed(cs: seq<Constraint>, n: string): nat {
    if |cs| == 0 then 0 else (if cs[0].name == n then 1 else 0) + CountNamed(cs[1..], n)
  }

  lemma {:induction false} CountNamedAppend(a: seq<Constraint>, b: seq<Constraint>, n: string)
    ensures CountNamed(a + b, n) == CountNamed(a, n) + CountNamed(b, n)
  {
    if |a| > 0 {
      assert (a + b)[1..] == a[1..] + b;
      CountNamedAppend(a[1..], b, n);
    } else {
      assert a + b == b;
    }
  }

  lemma {:induction false} CountNamedPositive(cs: seq<Constraint>, n: string)
    ensures CountNamed(cs, n) > 0 <==> HasNamed(cs, n)
  {
    if |cs| > 0 {
      CountNamedPositive(cs[1..], n);
      if HasNamed(cs[1..], n) {
        var i :| 0 <= i < |cs| - 1 && cs[1..][i].name == n;
        assert cs[i + 1].name == n;
      }
      if HasNamed(cs, n) && cs[0].name != n {
        var i :| 0 <= i < |cs| && cs[i].name == n;
        assert cs[1..][i - 1].name == n;
      }
    }
  }

  /**
   * No duplicate on repeated calls: installing adds a constraint called `n`
   * only when there was none, and otherwise leaves the number of such
   * constraints as it was.
   */
  lemma InstalledCount(cs: seq<Constraint>, n: string, armatureName: string,
                       s: SmartBoneSettings, probe: SpaceProbe)
    ensures CountNamed(Installed(cs, n, armatureName, s, probe), n)
            == if CountNamed(cs, n) == 0 then 1 else CountNamed(cs, n)
  {
    CountNamedPositive(cs, n);
    var r := Installed(cs, n, armatureName, s, probe);
    if HasNamed(cs, n) {
      var init := cs[..|cs| - 1];
      assert cs == init + [cs[|cs| - 1]];
      assert r == init + [r[|r| - 1]];
      CountNamedAppend(init, [cs[|cs| - 1]], n);
      CountNamedAppend(init, [r[|r| - 1]], n);
    } else {
      assert r == cs + [r[|r| - 1]];
      CountNamedAppend(cs, [r[|r| - 1]], n);
    }
  }

  /**
   * The constraint that is configured is the one called `n` whenever that
   * name is absent or belongs to the bone's last constraint, as it does after
   * the first installation on a bone.
   */
  lemma InstalledConfiguresNamed(cs: seq<Constraint>, n: string, armatureName: string,
                                 s: SmartBoneSettings, probe: SpaceProbe)
    requires !HasNamed(cs, n) || cs[|cs| - 1].name == n
    ensures var r := Installed(cs, n, armatureName, s, probe);
            r[|r| - 1].name == n && CarriesSettings(r[|r| - 1], armatureName, s)
  {
  }

  /**
   * The quirk of lines 360-368: when a constraint called `n` exists but is not
   * the bone's last one, nothing is appended, the last constraint receives the
   * settings under its own name, and every constraint called `n` keeps its old
   * fields.
   */
  lemma InstalledQuirk(cs: seq<Constraint>, i: nat, n: string, armatureName: string,
                       s: SmartBoneSettings, probe: SpaceProbe)
    requires i < |cs| && cs[i].name == n && cs[|cs| - 1].name != n
    ensures var r := Installed(cs, n, armatureName, s, probe);
            && |r| == |cs|
            && r[i] == cs[i]
            && (forall k | 0 <= k < |r| && r[k].name == n :: r[k] == cs[k])
            && r[|r| - 1].name == cs[|cs| - 1].name
            && r[|r| - 1] == Configure(cs[|cs| - 1], armatureName, s, probe)
            && CarriesSettings(r[|r| - 1], armatureName, s)
  {
    assert HasNamed(cs, n);
  }

  /** The part of a bone the add-on changes: its constraint stack. */
  class Bone {
    const name: string
    var constraints: seq<Constraint>

    constructor (name: string, constraints: seq<Constraint>)
      ensures this.name == name && this.constraints == constraints
    {
      this.name := name;
      this.constraints := constraints;
    }

    /** Lines 356-387 on this bone: create or update the constraint called `n`. */
    method InstallConstraint(n: string, armatureName: string, s: SmartBoneSettings, probe: SpaceProbe)
      modifies this
      ensures constraints == Installed(old(constraints), n, armatureName, s, probe)
    {
      var found := false;
      var i := 0;
      while i < |constraints|
        invariant 0 <= i <= |constraints|
        invariant found <==> HasNamed(constraints[..i], n)
      {
        if constraints[i].name == n {
          found := true;
        }
        assert constraints[..i + 1] == constraints[..i] + [constraints[i]];
        i := i + 1;
      }
      assert constraints[..i] == constraints;
      if !found {
        constraints := constraints + [NewActionConstraint(n)];
      }
      // The loop variable of the existence test is left on the last constraint.
      var last := |constraints| - 1;
      constraints := constraints[last := Configure(constraints[last], armatureName, s, probe)];
      assert constraints == Installed(old(constraints), n, armatureName, s, probe);
    }

    /**
     * Lines 431-433 on this bone: go through the constraints and remove each one
     * whose name contains `n`. Whatever the iteration does after a removal, the
     * stack keeps its order and loses only matching constraints, and isolated
     * matches all go. The iteration modelled here goes by index, so a removal
     * moves the next constraint into the position it has already passed.
     */
    method RemoveMatching(n: string)
      modifies this
      ensures RemovesOnlyMatches(old(constraints), constraints, n)
      ensures NoAdjacentMatches(old(constraints), n) ==> constraints == Unmatched(old(constraints), n)
      ensures constraints == Swept(old(constraints), n)
    {
      ghost var before := constraints;
      var i := 0;
      while i < |constraints|
        invariant i <= |constraints| + 1
        invariant i <= |constraints| ==> Swept(before, n) == constraints[..i] + Swept(constraints[i..], n)
        invariant i > |constraints| ==> Swept(before, n) == constraints
        decreases |constraints| + 2 - i
      {
        SweptStep(constraints, i, n);
        if Contains(constraints[i].name, n) {
          constraints := constraints[..i] + constraints[i + 1..];
        }
        i := i + 1;
      }
      if i <= |constraints| {
        assert constraints[..i] == constraints && constraints[i..] == [];
      }
      assert constraints == Swept(before, n);
      SweptAdmissible(before, n);
    }
  }

  /** One step of the removal loop keeps the final outcome in view. */
  lemma SweptStep(cs: seq<Constraint>, i: nat, n: string)
    requires i < |cs|
    ensures var done := cs[..i] + Swept(cs[i..], n);
            if MatchesName(cs[i], n) then
              var cs' := cs[..i] + cs[i + 1..];
              (i + 1 <= |cs'| ==> done == cs'[..i + 1] + Swept(cs'[i + 1..], n))
              && (i + 1 > |cs'| ==> done == cs')
            else done == cs[..i + 1] + Swept(cs[i + 1..], n)
  {
    assert cs[i..][1..] == cs[i + 1..];
    if MatchesName(cs[i], n) {
      var cs' := cs[..i] + cs[i + 1..];
      if i + 1 < |cs| {
        assert cs[i..][2..] == cs[i + 2..];
        assert cs'[..i + 1] == cs[..i] + [cs[i + 1]];
        assert cs'[i + 1..] == cs[i + 2..];
      } else {
        assert cs' == cs[..i];
      }
    } else {
      assert cs[..i + 1] == cs[..i] + [cs[i]];
    }
  }

  /** A constraint whose name contains `n` is removed by the deletion. */
  predicate MatchesName(c: Constraint, n: string) {
    Contains(c.name, n)
  }

  /** The constraints left by the removal loop of lines 431-433. */
  function Swept(cs: seq<Constraint>, n: string): (r: seq<Constraint>)
    ensures |r| <= |cs|
    decreases |cs|
  {
    if |cs| == 0 then []
    else if !MatchesName(cs[0], n) then [cs[0]] + Swept(cs[1..], n)
    else if |cs| == 1 then []
    else [cs[1]] + Swept(cs[2..], n)
  }

  /** The constraints whose names do not contain `n`, in order. */
  function Unmatched(cs: seq<Constraint>, n: string): (r: seq<Constraint>)
    ensures |r| <= |cs|
    ensures forall c | c in r :: c in cs && !MatchesName(c, n)
  {
    if |cs| == 0 then []
    else if MatchesName(cs[0], n) then Unmatched(cs[1..], n)
    else [cs[0]] + Unmatched(cs[1..], n)
  }

  /** The constraints the removal loop drops: each match whose turn is not skipped. */
  function Dropped(cs: seq<Constraint>, n: string): (r: seq<Constraint>)
    ensures forall c | c in r :: MatchesName(c, n)
    decreases |cs|
  {
    if |cs| == 0 then []
    else if !MatchesName(cs[0], n) then Dropped(cs[1..], n)
    else if |cs| == 1 then [cs[0]]
    else [cs[0]] + Dropped(cs[2..], n)
  }

  /**
   * The removal keeps every constraint whose name does not contain `n`, in
   * its order.
   */
  lemma {:induction false} SweptKeepsUnmatched(cs: seq<Constraint>, n: string)
    ensures Unmatched(Swept(cs, n), n) == Unmatched(cs, n)
    decreases |cs|
  {
    if |cs| == 0 {
    } else if !MatchesName(cs[0], n) {
      SweptKeepsUnmatched(cs[1..], n);
      assert ([cs[0]] + Swept(cs[1..], n))[1..] == Swept(cs[1..], n);
    } else if |cs| == 1 {
    } else {
      SweptKeepsUnmatched(cs[2..], n);
      assert cs[1..][1..] == cs[2..];
      assert ([cs[1]] + Swept(cs[2..], n))[1..] == Swept(cs[2..], n);
    }
  }

  /**
   * The constraints are split between those kept and those dropped, and only
   * matching ones are dropped.
   */
  lemma {:induction false} SweptSplits(cs: seq<Constraint>, n: string)
    ensures multiset(Swept(cs, n)) + multiset(Dropped(cs, n)) == multiset(cs)
    decreases |cs|
  {
    if |cs| == 0 {
    } else if !MatchesName(cs[0], n) {
      SweptSplits(cs[1..], n);
      SplitsKeepStep(cs, n);
    } else if |cs| == 1 {
      assert Swept(cs, n) == [] && Dropped(cs, n) == cs;
    } else {
      SweptSplits(cs[2..], n);
      SplitsDropStep(cs, n);
    }
  }

  lemma SplitsKeepStep(cs: seq<Constraint>, n: string)
    requires |cs| > 0 && !MatchesName(cs[0], n)
    requires multiset(Swept(cs[1..], n)) + multiset(Dropped(cs[1..], n)) == multiset(cs[1..])
    ensures multiset(Swept(cs, n)) + multiset(Dropped(cs, n)) == multiset(cs)
  {
    assert multiset(Swept(cs, n)) == multiset([cs[0]]) + multiset(Swept(cs[1..], n));
    assert cs == [cs[0]] + cs[1..];
  }

  lemma SplitsDropStep(cs: seq<Constraint>, n: string)
    requires |cs| > 1 && MatchesName(cs[0], n)
    requires multiset(Swept(cs[2..], n)) + multiset(Dropped(cs[2..], n)) == multiset(cs[2..])
    ensures multiset(Swept(cs, n)) + multiset(Dropped(cs, n)) == multiset(cs)
  {
    var rest := cs[2..];
    var kept, dropped := multiset(Swept(rest, n)), multiset(Dropped(rest, n));
    assert multiset(Swept(cs, n)) == multiset([cs[1]]) + kept;
    assert multiset(Dropped(cs, n)) == multiset([cs[0]]) + dropped;
    MultisetShuffle(multiset([cs[0]]), multiset([cs[1]]), kept, dropped);
    assert cs == [cs[0]] + [cs[1]] + rest;
    assert multiset(cs) == multiset([cs[0]]) + multiset([cs[1]]) + multiset(rest);
  }

  lemma MultisetShuffle<T>(a: multiset<T>, b: multiset<T>, s: multiset<T>, d: multiset<T>)
    ensures (b + s) + (a + d) == (a + b) + (s + d)
  {
  }

  /** `a` is `b` with some of its elements left out and the rest in their order. */
  predicate IsSubsequence(a: seq<Constraint>, b: seq<Constraint>)
    decreases |b|
  {
    if |b| == 0 then |a| == 0
    else IsSubsequence(a, b[1..]) || (|a| > 0 && a[0] == b[0] && IsSubsequence(a[1..], b[1..]))
  }

  lemma {:induction false} EmptySubsequence(b: seq<Constraint>)
    ensures IsSubsequence([], b)
    decreases |b|
  {
    if |b| > 0 {
      EmptySubsequence(b[1..]);
    }
  }

  /**
   * What removing the constraints whose name contains `n` may do to a stack,
   * whichever order a removal leaves the iteration in: the stack keeps its
   * order, loses no constraint that does not match, and loses only matching
   * ones.
   */
  predicate RemovesOnlyMatches(was: seq<Constraint>, now: seq<Constraint>, n: string) {
    && IsSubsequence(now, was)
    && Unmatched(now, n) == Unmatched(was, n)
    && forall c | c in multiset(was) && multiset(now)[c] < multiset(was)[c] :: MatchesName(c, n)
  }

  lemma {:induction false} SweptIsSubsequence(cs: seq<Constraint>, n: string)
    ensures IsSubsequence(Swept(cs, n), cs)
    decreases |cs|
  {
    if |cs| == 0 {
    } else if !MatchesName(cs[0], n) {
      SweptIsSubsequence(cs[1..], n);
      assert ([cs[0]] + Swept(cs[1..], n))[1..] == Swept(cs[1..], n);
    } else if |cs| == 1 {
      EmptySubsequence(cs);
    } else {
      var r := Swept(cs, n);
      SweptIsSubsequence(cs[2..], n);
      assert r[0] == cs[1..][0] && r[1..] == Swept(cs[2..], n) && cs[1..][1..] == cs[2..];
      assert IsSubsequence(r, cs[1..]);
    }
  }

  /** What RemoveMatching promises, for the outcome of the modelled iteration. */
  lemma SweptAdmissible(cs: seq<Constraint>, n: string)
    ensures RemovesOnlyMatches(cs, Swept(cs, n), n)
    ensures NoAdjacentMatches(cs, n) ==> Swept(cs, n) == Unmatched(cs, n)
  {
    SweptRemovesOnlyMatches(cs, n);
    if NoAdjacentMatches(cs, n) {
      SweptRemovesIsolatedMatches(cs, n);
    }
  }

  /** The modelled iteration is one admissible outcome of the removal. */
  lemma SweptRemovesOnlyMatches(cs: seq<Constraint>, n: string)
    ensures RemovesOnlyMatches(cs, Swept(cs, n), n)
  {
    SweptIsSubsequence(cs, n);
    SweptKeepsUnmatched(cs, n);
    SweptSplits(cs, n);
    var now, was := multiset(Swept(cs, n)), multiset(cs);
    forall c | c in was && now[c] < was[c] ensures MatchesName(c, n) {
      assert c in multiset(Dropped(cs, n));
    }
  }

  lemma {:induction false} UnmatchedIsSubsequence(cs: seq<Constraint>, n: string)
    ensures IsSubsequence(Unmatched(cs, n), cs)
    decreases |cs|
  {
    if |cs| > 0 {
      UnmatchedIsSubsequence(cs[1..], n);
      if !MatchesName(cs[0], n) {
        assert ([cs[0]] + Unmatched(cs[1..], n))[1..] == Unmatched(cs[1..], n);
      }
    }
  }

  lemma {:induction false} UnmatchedIdempotent(cs: seq<Constraint>, n: string)
    ensures Unmatched(Unmatched(cs, n), n) == Unmatched(cs, n)
    decreases |cs|
  {
    if |cs| > 0 {
      UnmatchedIdempotent(cs[1..], n);
      if !MatchesName(cs[0], n) {
        assert ([cs[0]] + Unmatched(cs[1..], n))[1..] == Unmatched(cs[1..], n);
      }
    }
  }

  lemma {:induction false} UnmatchedKeepsCount(cs: seq<Constraint>, n: string, c: Constraint)
    requires !MatchesName(c, n)
    ensures multiset(Unmatched(cs, n))[c] == multiset(cs)[c]
    decreases |cs|
  {
    if |cs| > 0 {
      UnmatchedKeepsCount(cs[1..], n, c);
      assert cs == [cs[0]] + cs[1..];
    }
  }

  /**
   * Removing every match, the other reading of an iteration over a changing
   * collection, is an admissible outcome as well.
   */
  lemma UnmatchedRemovesOnlyMatches(cs: seq<Constraint>, n: string)
    ensures RemovesOnlyMatches(cs, Unmatched(cs, n), n)
  {
    UnmatchedIsSubsequence(cs, n);
    UnmatchedIdempotent(cs, n);
    forall c | c in multiset(cs) && multiset(Unmatched(cs, n))[c] < multiset(cs)[c] ensures MatchesName(c, n) {
      if !MatchesName(c, n) {
        UnmatchedKeepsCount(cs, n, c);
      }
    }
  }

  /** No two neighbouring constraints both match. */
  predicate NoAdjacentMatches(cs: seq<Constraint>, n: string) {
    forall i | 0 <= i < |cs| - 1 :: !(MatchesName(cs[i], n) && MatchesName(cs[i + 1], n))
  }

  /** When no two matching constraints are neighbours, every match is removed. */
  lemma {:induction false} SweptRemovesIsolatedMatches(cs: seq<Constraint>, n: string)
    requires NoAdjacentMatches(cs, n)
    ensures Swept(cs, n) == Unmatched(cs, n)
    decreases |cs|
  {
    if |cs| == 0 {
    } else if !MatchesName(cs[0], n) {
      assert NoAdjacentMatches(cs[1..], n) by {
        forall i | 0 <= i < |cs[1..]| - 1 ensures !(MatchesName(cs[1..][i], n) && MatchesName(cs[1..][i + 1], n)) {
          assert cs[1..][i] == cs[i + 1] && cs[1..][i + 1] == cs[i + 2];
        }
      }
      SweptRemovesIsolatedMatches(cs[1..], n);
    } else if |cs| == 1 {
    } else {
      assert !MatchesName(cs[1], n);
      assert NoAdjacentMatches(cs[2..], n) by {
        forall i | 0 <= i < |cs[2..]| - 1 ensures !(MatchesName(cs[2..][i], n) && MatchesName(cs[2..][i + 1], n)) {
          assert cs[2..][i] == cs[i + 2] && cs[2..][i + 1] == cs[i + 3];
        }
      }
      SweptRemovesIsolatedMatches(cs[2..], n);
      assert cs[1..][1..] == cs[2..];
    }
  }

  /** Two neighbouring matches: the second one survives the removal. */
  lemma SweptSkipsNeighbour(a: Constraint, b: Constraint, n: string)
    requires MatchesName(a, n) && MatchesName(b, n)
    ensures Swept([a, b], n) == [b]
  {
    assert [a, b][2..] == [];
  }

  /** Matching is by substring, so the name of another action can match too. */
  lemma SubstringMatchesLongerAction(c: Constraint)
    requires c.name == ConstraintName("c", "act2")
    ensures MatchesName(c, ConstraintName("c", "act"))
  {
    assert OccursAt(c.name, ConstraintName("c", "act"), 0);
  }

  // ---------------------------------------------------------------------
  // Armatures and the two operators
  // ---------------------------------------------------------------------

  /** A scene object with, when it is an armature, its pose bones. */
  class Armature {
    const name: string
    const kind: ObjectKind
    const bones: seq<Bone>

    constructor (name: string, kind: ObjectKind, bones: seq<Bone>)
      ensures this.name == name && this.kind == kind && this.bones == bones
    {
      this.name := name;
      this.kind := kind;
      this.bones := bones;
    }

    /** Bone names are unique within an armature, as the host keeps them. */
    ghost predicate Valid() {
      forall i, j | 0 <= i < j < |bones| :: bones[i].name != bones[j].name
    }

    predicate HasBone(boneName: string) {
      exists i | 0 <= i < |bones| :: bones[i].name == boneName
    }

    /** `pose.bones[boneName]`: None where the lookup raises. */
    function PoseBone(boneName: string): (r: Option<Bone>)
      ensures r.Some? ==> kind == Armature && r.value in bones && r.value.name == boneName
      ensures r.None? <==> kind != Armature || !HasBone(boneName)
    {
      if kind != Armature then None else FindBone(bones, boneName)
    }
  }

  function FindBone(bones: seq<Bone>, boneName: string): (r: Option<Bone>)
    ensures r.Some? ==> r.value in bones && r.value.name == boneName
    ensures r.None? <==> forall i | 0 <= i < |bones| :: bones[i].name != boneName
  {
    if |bones| == 0 then None
    else if bones[0].name == boneName then Some(bones[0])
    else
      var r := FindBone(bones[1..], boneName);
      assert forall i | 1 <= i < |bones| :: bones[i] == bones[1..][i - 1];
      r
  }

  /** Why an operator stops with an exception. */
  datatype SmartBoneError = NoSuchAction | UnquotedPath(index: nat) | NoControlArmature | NoControlBone

  /**
   * Bone `b` of `current` is driven: it is named in the action, the control
   * bone was found, and `b` is not that control bone.
   */
  ghost predicate IsDriven(current: Armature, ctrl: Armature, actionBones: seq<string>, controlName: string, b: Bone) {
    && current.kind == Armature
    && b.name in actionBones
    && ctrl.PoseBone(controlName).Some?
    && ctrl.PoseBone(controlName).value != b
  }

  /**
   * add_action_constraint (lines 333-387). It acts only on an armature. Every
   * named bone of `current` except the control bone itself gets the
   * constraint; bones of the action that `current` lacks are skipped. It raises
   * when a named bone is present but the control bone cannot be found, and then
   * nothing has changed yet.
   */
  method AddActionConstraint(current: Armature, ctrl: Armature, actionBones: seq<string>,
                             s: SmartBoneSettings, probe: SpaceProbe)
    returns (r: Option<SmartBoneError>)
    requires current.Valid()
    modifies current.bones
    ensures r == if current.kind == Armature && ctrl.PoseBone(s.controlName).None?
                    && exists a | a in actionBones :: current.HasBone(a)
                 then Some(NoControlBone) else None
    ensures forall b | b in current.bones :: DrivenState(b, current, ctrl, actionBones, s, probe, old(b.constraints))
  {
    r := None;
    if current.kind != Armature {
      return;
    }
    var n := ConstraintName(s.controlName, s.actionName);
    var names := BoneNames(current);
    ghost var before := map b | b in current.bones :: b.constraints;
    var k := 0;
    while k < |actionBones|
      invariant 0 <= k <= |actionBones|
      invariant r.None?
      invariant ctrl.PoseBone(s.controlName).None? ==> forall a | a in actionBones[..k] :: !current.HasBone(a)
      invariant forall b | b in current.bones :: DrivenState(b, current, ctrl, actionBones[..k], s, probe, before[b])
    {
      var a := actionBones[k];
      assert actionBones[..k + 1] == actionBones[..k] + [a];
      if a in names {
        assert current.HasBone(a) by {
          var j :| 0 <= j < |names| && names[j] == a;
          assert current.bones[j].name == a;
        }
        var failed := DriveBone(current, ctrl, actionBones[..k], a, s, probe, before);
        if failed {
          r := Some(NoControlBone);
          return;
        }
      } else {
        forall j | 0 <= j < |current.bones| ensures current.bones[j].name != a {
          assert names[j] == current.bones[j].name;
        }
        SkipAbsentBone(current, ctrl, actionBones[..k], a, s, probe, before);
      }
      k := k + 1;
    }
    assert actionBones[..k] == actionBones;
  }

  /** `bones_in_current_obj`: the names of the bones of `current`, in order (lines 342-344). */
  method BoneNames(current: Armature) returns (names: seq<string>)
    ensures |names| == |current.bones|
    ensures forall k | 0 <= k < |names| :: names[k] == current.bones[k].name
  {
    names := [];
    var i := 0;
    while i < |current.bones|
      invariant 0 <= i <= |current.bones|
      invariant |names| == i && forall k | 0 <= k < i :: names[k] == current.bones[k].name
    {
      names := names + [current.bones[i].name];
      i := i + 1;
    }
  }

  /** A bone of the action that `current` lacks changes nothing (line 350). */
  lemma SkipAbsentBone(current: Armature, ctrl: Armature, done: seq<string>, a: string,
                       s: SmartBoneSettings, probe: SpaceProbe, before: map<Bone, seq<Constraint>>)
    requires forall j | 0 <= j < |current.bones| :: current.bones[j].name != a
    requires forall b | b in current.bones :: b in before && DrivenState(b, current, ctrl, done, s, probe, before[b])
    ensures forall b | b in current.bones :: DrivenState(b, current, ctrl, done + [a], s, probe, before[b])
  {
    forall b | b in current.bones
      ensures DrivenState(b, current, ctrl, done + [a], s, probe, before[b])
    {
      assert b.name in done + [a] <==> b.name in done;
    }
  }

  /**
   * One round of the loop over the action's bones, for a bone `a` that
   * `current` has: look up the control bone (raising when it is missing) and,
   * unless `a` is the control bone itself, install the constraint on it.
   */
  method DriveBone(current: Armature, ctrl: Armature, done: seq<string>, a: string,
                   s: SmartBoneSettings, probe: SpaceProbe, ghost before: map<Bone, seq<Constraint>>)
    returns (failed: bool)
    requires current.Valid() && current.kind == Armature && current.HasBone(a)
    requires forall b | b in current.bones :: b in before && DrivenState(b, current, ctrl, done, s, probe, before[b])
    modifies current.bones
    ensures failed <==> ctrl.PoseBone(s.controlName).None?
    ensures failed ==> forall b | b in current.bones :: b.constraints == old(b.constraints)
    ensures !failed ==> forall b | b in current.bones :: DrivenState(b, current, ctrl, done + [a], s, probe, before[b])
  {
    var n := ConstraintName(s.controlName, s.actionName);
    var bone := current.PoseBone(a).value;
    var control := ctrl.PoseBone(s.controlName);
    if control.None? {
      return true;
    }
    failed := false;
    if control.value != bone {
      bone.InstallConstraint(n, ctrl.name, s, probe);
      if a in done {
        InstalledIdempotent(before[bone], n, ctrl.name, s, probe);
      }
    }
    forall b | b in current.bones
      ensures DrivenState(b, current, ctrl, done + [a], s, probe, before[b])
    {
      if b != bone {
        var x :| 0 <= x < |current.bones| && current.bones[x] == b;
        var y :| 0 <= y < |current.bones| && current.bones[y] == bone;
        assert x != y;
        assert b.name != a;
        assert b.name in done + [a] <==> b.name in done;
      }
    }
  }

  /** Bone `b` carries the installed constraint exactly when it is driven, and is otherwise as it was. */
  ghost predicate DrivenState(b: Bone, current: Armature, ctrl: Armature, actionBones: seq<string>,
                              s: SmartBoneSettings, probe: SpaceProbe, was: seq<Constraint>)
    reads b
  {
    b.constraints == if IsDriven(current, ctrl, actionBones, s.controlName, b)
                     then Installed(was, ConstraintName(s.controlName, s.actionName), ctrl.name, s, probe)
                     else was
  }

  /**
   * The Add Smart Bone operator (lines 283-317): look the action up, scan its
   * curve paths, and install the constraints. `action` is None when no action
   * has the configured name, `ctrl` null when no scene object has the
   * configured armature name; both lookups raise in the add-on.
   */
  method AddSmartBone(current: Armature, action: Option<seq<string>>, ctrl: Armature?,
                      s: SmartBoneSettings, probe: SpaceProbe)
    returns (r: Option<SmartBoneError>)
    requires current.Valid()
    modifies current.bones
    ensures action.None? ==> r == Some(NoSuchAction)
    ensures action.Some? && ScanBones(action.value).Err? ==> r == Some(UnquotedPath(ScanBones(action.value).error.index))
    ensures action.Some? && ScanBones(action.value).Ok? && ctrl == null ==> r == Some(NoControlArmature)
    ensures r.None? || r == Some(NoControlBone) || forall b | b in current.bones :: b.constraints == old(b.constraints)
    ensures action.Some? && ScanBones(action.value).Ok? && ctrl != null ==>
              var actionBones := ScanBones(action.value).value;
              && r == (if current.kind == Armature && ctrl.PoseBone(s.controlName).None?
                          && exists a | a in actionBones :: current.HasBone(a)
                       then Some(NoControlBone) else None)
              && forall b | b in current.bones :: DrivenState(b, current, ctrl, actionBones, s, probe, old(b.constraints))
  {
    if action.None? {
      return Some(NoSuchAction);
    }
    var scanned := FindActionBones(action.value);
    if scanned.Err? {
      return Some(UnquotedPath(scanned.error.index));
    }
    if ctrl == null {
      return Some(NoControlArmature);
    }
    r := AddActionConstraint(current, ctrl, scanned.value, s, probe);
  }

  /** find_action_bones (lines 319-330). */
  method FindActionBones(paths: seq<string>) returns (r: Result<seq<string>, ScanError>)
    ensures r == ScanBones(paths)
  {
    var bones: seq<string> := [];
    var i := 0;
    while i < |paths|
      invariant 0 <= i <= |paths|
      invariant ScanBones(paths[..i]) == Ok(bones)
    {
      assert paths[..i + 1][..i] == paths[..i];
      var path := paths[i];
      if IsPoseBonePath(path) {
        var quoted := FirstQuoted(path);
        if quoted.None? {
          // findall(...)[0] raises, which abandons the scan.
          r := Err(UnquotedBonePath(i));
          ScanErrorPersists(paths, i + 1);
          return;
        }
        if quoted.value !in bones {
          bones := bones + [quoted.value];
        }
      }
      i := i + 1;
    }
    assert paths[..i] == paths;
    r := Ok(bones);
  }

  /** Once the scan of a prefix has failed, the scan of the whole list fails the same way. */
  lemma {:induction false} ScanErrorPersists(paths: seq<string>, k: nat)
    requires k <= |paths| && ScanBones(paths[..k]).Err?
    ensures ScanBones(paths) == ScanBones(paths[..k])
    decreases |paths| - k
  {
    if k < |paths| {
      assert paths[..k + 1][..k] == paths[..k];
      ScanErrorPersists(paths, k + 1);
    } else {
      assert paths[..k] == paths;
    }
  }

  /**
   * The Delete Smart Bone operator (lines 397-437). It acts only on an
   * armature; it raises when no scene object has the configured control
   * armature name (`ctrl` null). On every bone it removes constraints whose
   * names contain the derived name and only those, all of them when no two
   * matches are neighbours, leaving what Swept describes.
   */
  method DeleteSmartBone(current: Armature, ctrl: Armature?, controlName: string, actionName: string)
    returns (r: Option<SmartBoneError>)
    requires current.Valid()
    modifies current.bones
    ensures r == if current.kind == Armature && ctrl == null then Some(NoControlArmature) else None
    ensures forall b | b in current.bones ::
              RemovesOnlyMatches(old(b.constraints), b.constraints, ConstraintName(controlName, actionName))
    ensures current.kind == Armature && ctrl != null ==>
              forall b | b in current.bones && NoAdjacentMatches(old(b.constraints), ConstraintName(controlName, actionName)) ::
                b.constraints == Unmatched(old(b.constraints), ConstraintName(controlName, actionName))
    ensures forall b | b in current.bones ::
              b.constraints == if current.kind == Armature && ctrl != null
                               then Swept(old(b.constraints), ConstraintName(controlName, actionName))
                               else old(b.constraints)
  {
    r := None;
    var n := ConstraintName(controlName, actionName);
    if current.kind != Armature || ctrl == null {
      if current.kind == Armature {
        r := Some(NoControlArmature);
      }
      forall b | b in current.bones ensures RemovesOnlyMatches(b.constraints, b.constraints, n) {
        NothingRemoved(b.constraints, n);
      }
      return;
    }
    var i := 0;
    while i < |current.bones|
      invariant 0 <= i <= |current.bones|
      invariant forall k | 0 <= k < |current.bones| ::
                  current.bones[k].constraints == if k < i then Swept(old(current.bones[k].constraints), n)
                                                  else old(current.bones[k].constraints)
    {
      var bone := current.bones[i];
      bone.RemoveMatching(n);
      forall k | 0 <= k < |current.bones| && k != i ensures current.bones[k] != bone {
        assert current.bones[k].name != current.bones[i].name;
      }
      i := i + 1;
    }
    forall b | b in current.bones
      ensures RemovesOnlyMatches(old(b.constraints), b.constraints, n)
      ensures NoAdjacentMatches(old(b.constraints), n) ==> b.constraints == Unmatched(old(b.constraints), n)
    {
      SweptAdmissible(old(b.constraints), n);
    }
  }

  lemma {:induction false} SubsequenceReflexive(cs: seq<Constraint>)
    ensures IsSubsequence(cs, cs)
    decreases |cs|
  {
    if |cs| > 0 {
      SubsequenceReflexive(cs[1..]);
    }
  }

  /** Leaving a stack as it was is an admissible removal. */
  lemma NothingRemoved(cs: seq<Constraint>, n: string)
    ensures RemovesOnlyMatches(cs, cs, n)
  {
    SubsequenceReflexive(cs);
  }
}

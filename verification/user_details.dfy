/** The user details card: the role check boxes, their toggling, and when
    the "Update Roles" button is enabled. */
module UserDetails {
  import opened Wrappers
  import opened Seqs
  import opened Users

  /** `eqSet`: same size, and every element of `xs` is in `ys`; this
      decides set equality. */
  predicate EqSet(xs: set<int>, ys: set<int>): (r: bool)
    ensures r <==> xs == ys
  {
    SameSizeSubsetIsEqual(xs, ys);
    assert (forall x :: x in xs ==> x in ys) ==> xs <= ys;
    |xs| == |ys| && forall x :: x in xs ==> x in ys
  }

  lemma SameSizeSubsetIsEqual(xs: set<int>, ys: set<int>)
    ensures xs <= ys && |xs| == |ys| ==> xs == ys
  {
    if xs <= ys && |xs| == |ys| {
      var rest := ys - xs;
      assert ys == xs + rest && xs !! rest;
      assert |ys| == |xs| + |rest|;
      assert rest == {};
    }
  }

  function SetOf(xs: seq<int>): set<int> {
    set x | x in xs
  }

  /** `handleRoleSelect`: removes the first occurrence of a selected id,
      appends an id that is not selected. */
  function ToggleRole(selected: seq<int>, roleId: int): (r: seq<int>)
    ensures roleId !in selected ==> r == selected + [roleId]
    ensures roleId in selected ==>
              exists i :: 0 <= i < |selected| && selected[i] == roleId && roleId !in selected[..i]
                          && r == selected[..i] + selected[i + 1..]
    ensures roleId in selected ==>
              multiset(r) == multiset(selected)[roleId := multiset(selected)[roleId] - 1]
    ensures forall x :: x != roleId ==> (x in r <==> x in selected)
  {
    if roleId in selected then
      var i := IndexOf(selected, roleId);
      assert selected == selected[..i] + [roleId] + selected[i + 1..];
      selected[..i] + selected[i + 1..]
    else selected + [roleId]
  }

  /** On a duplicate-free selection a toggle flips exactly the toggled id
      and keeps the selection duplicate-free. */
  lemma ToggleFlipsMembership(selected: seq<int>, roleId: int)
    requires NoDup(selected)
    ensures NoDup(ToggleRole(selected, roleId))
    ensures roleId in ToggleRole(selected, roleId) <==> roleId !in selected
  {
    var r := ToggleRole(selected, roleId);
    if roleId in selected {
      var i := IndexOf(selected, roleId);
      assert r == selected[..i] + selected[i + 1..];
      forall a, b | 0 <= a < b < |r| ensures r[a] != r[b] {
        var a' := if a < i then a else a + 1;
        var b' := if b < i then b else b + 1;
        assert r[a] == selected[a'] && r[b] == selected[b'];
      }
      assert multiset(selected)[roleId] == 1 by {
        MultisetCountOfNoDup(selected, roleId);
      }
    }
  }

  lemma {:induction false} MultisetCountOfNoDup(xs: seq<int>, x: int)
    requires NoDup(xs) && x in xs
    ensures multiset(xs)[x] == 1
  {
    if xs[0] == x {
      assert xs == [x] + xs[1..];
      assert x !in xs[1..];
    } else {
      assert xs == [xs[0]] + xs[1..];
      assert NoDup(xs[1..]);
      MultisetCountOfNoDup(xs[1..], x);
    }
  }

  /** Toggling the same id twice gives back the same roles. */
  lemma ToggleTwiceRestores(selected: seq<int>, roleId: int)
    requires NoDup(selected)
    ensures multiset(ToggleRole(ToggleRole(selected, roleId), roleId)) == multiset(selected)
  {
    var once := ToggleRole(selected, roleId);
    ToggleFlipsMembership(selected, roleId);
    if roleId in selected {
      assert multiset(selected)[roleId] == 1 by { MultisetCountOfNoDup(selected, roleId); }
    } else {
      assert multiset(once)[roleId] == 1;
    }
  }

  /** The selection the card starts from: the user's role ids in order. */
  function InitialSelection(user: User): (r: seq<int>)
    ensures |r| == |user.userRoles|
    ensures forall i :: 0 <= i < |r| ==> r[i] == user.userRoles[i].roleId
  {
    if |user.userRoles| > 0 then seq(|user.userRoles|, i requires 0 <= i < |user.userRoles| => user.userRoles[i].roleId)
    else []
  }

  /** `roleChanged`: the selected set differs from the held one. */
  predicate RoleChanged(user: User, selected: seq<int>): (r: bool)
    ensures r <==> SetOf(selected) != ExistingRoleIds(user.userRoles)
  {
    !EqSet(ExistingRoleIds(user.userRoles), SetOf(selected))
  }

  /** A freshly opened card never shows a change. */
  lemma InitialSelectionUnchanged(user: User)
    ensures !RoleChanged(user, InitialSelection(user))
  {
    var s := InitialSelection(user);
    forall x | x in ExistingRoleIds(user.userRoles) ensures x in SetOf(s) {
      var l :| l in user.userRoles && l.roleId == x;
      var i :| 0 <= i < |user.userRoles| && user.userRoles[i] == l;
      assert s[i] == x;
    }
  }

  /** `handleUpdaRoleClick` behind the `disabled={!roleChanged}` button: the
      current selection is passed on unchanged, and only when it differs. */
  function UpdateRolesClick(user: User, selected: seq<int>): (r: Option<seq<int>>)
    ensures r.Some? <==> SetOf(selected) != ExistingRoleIds(user.userRoles)
    ensures r.Some? ==> r.value == selected
  {
    if RoleChanged(user, selected) then Some(selected) else None
  }

  /** An enabled update never sends an empty request. */
  lemma EnabledUpdateSendsChanges(user: User, selected: seq<int>)
    requires UpdateRolesClick(user, selected).Some?
    ensures RoleDiff(user, selected) != ChangeUserRoles([], [])
  {
    DiffEmptyIffSelectionUnchanged(user, selected);
  }
}

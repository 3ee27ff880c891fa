/** Which directories bear a pod's name, and how deep they are looked for. */
module CgroupNames {
  import opened Tiers
  import opened CgroupSearch

  /** The systemd driver's spelling of a UID: an underscore for every dash. */
  lemma {:induction false} UnderscoreLaw(uid: string)
    ensures var n := NormalizeUID(uid);
            && |n| == |uid|
            && (forall i :: 0 <= i < |uid| ==> (uid[i] == '-' ==> n[i] == '_') && (uid[i] != '-' ==> n[i] == uid[i]))
            && (n == uid <==> forall i :: 0 <= i < |uid| ==> uid[i] != '-')
    ensures NormalizeUID(NormalizeUID(uid)) == NormalizeUID(uid)
  {
    var n := NormalizeUID(uid);
    if n == uid {
      forall i | 0 <= i < |uid| ensures uid[i] != '-' {
        assert n[i] == uid[i];
      }
    }
  }

  lemma {:induction false} ContainsExactly(s: string, sub: string)
    ensures Contains(s, sub) <==> exists pre, post :: s == pre + sub + post
  {
    if i :| 0 <= i <= |s| && OccursAt(s, sub, i) {
      assert s == s[..i] + sub + s[i + |sub|..];
    }
    if pre, post :| s == pre + sub + post {
      assert OccursAt(s, sub, |pre|);
    }
  }

  /** A directory bears a pod's name exactly when "pod" and the UID, as it is or with underscores
      for dashes, stand somewhere in its own. */
  lemma {:induction false} NamesExactly(uid: string, name: string)
    ensures NamesPod(uid, name) <==>
            || (exists pre, post :: name == pre + ("pod" + uid) + post)
            || (exists pre, post :: name == pre + ("pod" + NormalizeUID(uid)) + post)
  {
    ContainsExactly(name, "pod" + uid);
    ContainsExactly(name, "pod" + NormalizeUID(uid));
  }

  /** Both drivers' spellings of a pod's directory are recognised, in any slice. */
  lemma {:induction false} DriversNamePods(uid: string, slice: string)
    ensures NamesPod(uid, "pod" + uid)
    ensures NamesPod(uid, slice + "-pod" + NormalizeUID(uid) + ".slice")
  {
    assert "pod" + uid == "" + ("pod" + uid) + "";
    NamesExactly(uid, "pod" + uid);
    assert slice + "-pod" + NormalizeUID(uid) + ".slice" == (slice + "-") + ("pod" + NormalizeUID(uid)) + ".slice";
    NamesExactly(uid, slice + "-pod" + NormalizeUID(uid) + ".slice");
  }

  /** A pod's directory is found if one lies within six levels, behind readable directories only,
      and what is found is as shallow as any and within six levels itself. */
  lemma {:induction false} WithinSixLevels(uid: string, root: Entry, found: Option<Path>)
    requires root.Dir? && Shallowest(root, MAX_DEPTH, PodPattern(uid), found)
    ensures found.Some? ==> |found.value| <= 6 && Leads(root, found.value, PodPattern(uid))
    ensures forall p :: Leads(root, p, PodPattern(uid)) && |p| <= 6 ==> found.Some? && |found.value| <= |p|
  {
    forall p | Leads(root, p, PodPattern(uid)) && |p| <= 6 ensures found.Some? && |found.value| <= |p| {
      assert Candidate(root, p, MAX_DEPTH, PodPattern(uid));
    }
  }
}

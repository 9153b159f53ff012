/**
 * Group names of determinised operators. Determinisation names every
 * outcome variant of a nondeterministic action "<group>_DETDUP<rest>";
 * the group name is everything before the first marker.
 */
module NondetNames {
  import opened Wrappers

  const DETDUP_MARKER: string := "_DETDUP"

  /** pat occurs in s starting at position j. */
  predicate OccursAt(s: string, pat: string, j: nat)
  {
    j + |pat| <= |s| && s[j..j + |pat|] == pat
  }

  predicate Contains(s: string, pat: string)
  {
    exists j: nat :: j <= |s| && OccursAt(s, pat, j)
  }

  /**
   * std::string::find(pat, i): the first position at or after i where pat
   * occurs, or None for std::string::npos.
   */
  function FindFrom(s: string, pat: string, i: nat): (r: Option<nat>)
    requires i <= |s|
    ensures r.Some? ==> i <= r.value && OccursAt(s, pat, r.value)
    ensures r.Some? ==> forall j: nat :: i <= j < r.value ==> !OccursAt(s, pat, j)
    ensures r.None? ==> forall j: nat :: i <= j ==> !OccursAt(s, pat, j)
    decreases |s| - i
  {
    if i + |pat| > |s| then None
    else if s[i..i + |pat|] == pat then Some(i)
    else FindFrom(s, pat, i + 1)
  }

  function Find(s: string, pat: string): Option<nat>
  {
    FindFrom(s, pat, 0)
  }

  /**
   * PR2OperatorProxy::get_nondet_name on an operator named `name`:
   * name.substr(0, name.find("_DETDUP")). When the marker is absent, find
   * gives npos and substr clamps the length to the whole string.
   */
  function NondetName(name: string): (r: string)
    ensures r <= name
    ensures !Contains(r, DETDUP_MARKER)
    ensures !Contains(name, DETDUP_MARKER) ==> r == name
    ensures Contains(name, DETDUP_MARKER) ==> OccursAt(name, DETDUP_MARKER, |r|)
    ensures forall j: nat :: j < |r| ==> !OccursAt(name, DETDUP_MARKER, j)
  {
    match Find(name, DETDUP_MARKER)
    case Some(k) =>
      assert forall j: nat :: OccursAt(name[..k], DETDUP_MARKER, j) ==> OccursAt(name, DETDUP_MARKER, j) by {
        forall j: nat | OccursAt(name[..k], DETDUP_MARKER, j)
          ensures OccursAt(name, DETDUP_MARKER, j)
        {
          assert name[..k][j..j + |DETDUP_MARKER|] == name[j..j + |DETDUP_MARKER|];
        }
      }
      name[..k]
    case None => name
  }

  /** Truncating a group name again changes nothing. */
  lemma NondetNameIdempotent(name: string)
    ensures NondetName(NondetName(name)) == NondetName(name)
  {
  }

  /** No character of the marker after the first one is '_'. */
  lemma MarkerTailHasNoUnderscore(d: nat)
    requires 1 <= d < |DETDUP_MARKER|
    ensures DETDUP_MARKER[d] != '_'
  {
  }

  /**
   * Decoding a determinised name recovers its group: the marker cannot
   * start inside a group name free of it, since it has no border.
   */
  lemma {:induction false} NondetNameOfVariant(group: string, rest: string)
    requires !Contains(group, DETDUP_MARKER)
    ensures NondetName(group + DETDUP_MARKER + rest) == group
  {
    var w := group + DETDUP_MARKER + rest;
    var m := |DETDUP_MARKER|;
    assert w[|group|..|group| + m] == DETDUP_MARKER;
    assert OccursAt(w, DETDUP_MARKER, |group|);
    var r := NondetName(w);
    var k := |r|;
    assert OccursAt(w, DETDUP_MARKER, k);
    if k < |group| {
      if k + m <= |group| {
        assert w[k..k + m] == group[k..k + m];
        assert OccursAt(group, DETDUP_MARKER, k);
        assert false;
      } else {
        var d := |group| - k;
        assert w[|group|] == w[k..k + m][d] == DETDUP_MARKER[d];
        assert w[|group|] == DETDUP_MARKER[0] == '_';
        MarkerTailHasNoUnderscore(d);
        assert false;
      }
    }
    assert k == |group|;
    assert r == w[..k] == group;
  }

  /** A name without '_' cannot contain the marker, which starts with one. */
  lemma NoUnderscoreNoMarker(s: string)
    requires forall i :: 0 <= i < |s| ==> s[i] != '_'
    ensures !Contains(s, DETDUP_MARKER)
  {
    forall j: nat | j <= |s|
      ensures !OccursAt(s, DETDUP_MARKER, j)
    {
      if OccursAt(s, DETDUP_MARKER, j) {
        MarkerStartsWithUnderscore(s, j);
      }
    }
  }

  lemma MarkerStartsWithUnderscore(s: string, j: nat)
    requires OccursAt(s, DETDUP_MARKER, j)
    ensures s[j] == '_'
  {
  }

  /** The determinised variant "move-left_DETDUP_2" belongs to group "move-left". */
  lemma MoveLeftExample()
    ensures NondetName("move-left_DETDUP_2") == "move-left"
  {
    var name := "move-left_DETDUP_2";
    var group, rest := name[..9], name[16..];
    assert name == group + DETDUP_MARKER + rest;
    NoUnderscoreNoMarker(group);
    NondetNameOfVariant(group, rest);
  }
}

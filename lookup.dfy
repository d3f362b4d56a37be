/**
  Searches over the indexing-status listing: `get_one`, which returns the
  first entry carrying a pair id, and `verify`, which checks that a created
  pair is listed with the fields it was created with, or that it is gone.
 */
module Lookup {
  import opened Records

  /** The groups of a pair as a set: order and repetition carry no meaning. */
  function GroupSet(groups: seq<int>): set<int> {
    set g | g in groups
  }

  /** Some entry of the listing carries the id. */
  predicate Listed(listed: seq<IndexingStatus>, id: int) {
    exists i :: 0 <= i < |listed| && listed[i].ccPairId == id
  }

  /** The listing entry describes the created pair: same id, same fields, same set of groups. */
  predicate Matches(entry: IndexingStatus, pair: TestCCPair) {
    && entry.ccPairId == pair.id
    && entry.name == pair.name
    && entry.connectorId == pair.connectorId
    && entry.credentialId == pair.credentialId
    && entry.accessType == pair.accessType
    && GroupSet(entry.groups) == GroupSet(pair.groups)
  }

  /** The first entry of the listing whose id is `id`, if any. */
  function GetOne(id: int, listed: seq<IndexingStatus>): (r: Option<IndexingStatus>)
    ensures r.None? <==> !Listed(listed, id)
    ensures r.Some? ==>
      exists i :: 0 <= i < |listed| && listed[i] == r.value && r.value.ccPairId == id &&
        forall j :: 0 <= j < i ==> listed[j].ccPairId != id
  {
    if listed == [] then None
    else if listed[0].ccPairId == id then
      Some(listed[0])
    else
      var rest := GetOne(id, listed[1..]);
      assert forall i :: 0 <= i < |listed[1..]| ==> listed[1..][i] == listed[i + 1];
      assert Listed(listed, id) ==> Listed(listed[1..], id) by {
        if Listed(listed, id) {
          var i :| 0 <= i < |listed| && listed[i].ccPairId == id;
          assert listed[1..][i - 1].ccPairId == id;
        }
      }
      if rest.Some? then
        var i :| 0 <= i < |listed[1..]| && listed[1..][i] == rest.value && rest.value.ccPairId == id &&
          forall j :: 0 <= j < i ==> listed[1..][j].ccPairId != id;
        assert listed[i + 1] == rest.value;
        assert forall j :: 0 <= j < i + 1 ==> listed[j].ccPairId != id by {
          forall j | 0 <= j < i + 1 ensures listed[j].ccPairId != id {
            if j > 0 { assert listed[j] == listed[1..][j - 1]; }
          }
        }
        rest
      else
        rest
  }

  /** Why `verify` raises. */
  datatype VerifyError = FoundButShouldBeDeleted(id: int) | NotFound(id: int)

  datatype Check = Verified | Raised(error: VerifyError)

  /**
    `verify` over an already fetched listing, scanned in order. An entry with
    the pair's id ends the scan at once when the pair should be deleted; when
    the pair should be present, only an entry matching on every field ends it,
    and a partly matching one lets the scan go on.
   */
  function Verify(pair: TestCCPair, listed: seq<IndexingStatus>, verifyDeleted: bool): (r: Check)
    ensures verifyDeleted ==> (r == Verified <==> !Listed(listed, pair.id))
    ensures !verifyDeleted ==> (r == Verified <==> exists i :: 0 <= i < |listed| && Matches(listed[i], pair))
    ensures r.Raised? ==>
      r.error == if verifyDeleted then FoundButShouldBeDeleted(pair.id) else NotFound(pair.id)
  {
    if listed == [] then
      if verifyDeleted then Verified else Raised(NotFound(pair.id))
    else
      var rest := Verify(pair, listed[1..], verifyDeleted);
      assert forall i :: 0 <= i < |listed[1..]| ==> listed[1..][i] == listed[i + 1];
      assert Listed(listed, pair.id) <==> listed[0].ccPairId == pair.id || Listed(listed[1..], pair.id) by {
        if Listed(listed, pair.id) && listed[0].ccPairId != pair.id {
          var i :| 0 <= i < |listed| && listed[i].ccPairId == pair.id;
          assert listed[1..][i - 1].ccPairId == pair.id;
        }
      }
      assert (exists i :: 0 <= i < |listed| && Matches(listed[i], pair)) <==>
        Matches(listed[0], pair) || exists i :: 0 <= i < |listed[1..]| && Matches(listed[1..][i], pair) by {
        if exists i :: 0 <= i < |listed| && Matches(listed[i], pair) {
          var i :| 0 <= i < |listed| && Matches(listed[i], pair);
          if i > 0 { assert Matches(listed[1..][i - 1], pair); }
        }
      }
      if listed[0].ccPairId == pair.id then
        if verifyDeleted then Raised(FoundButShouldBeDeleted(pair.id))
        else if Matches(listed[0], pair) then Verified
        else rest
      else
        rest
  }

  /** The order and repetitions of the handle's groups never change the verdict. */
  lemma {:induction false} GroupOrderIgnored(pair: TestCCPair, groups: seq<int>, listed: seq<IndexingStatus>, verifyDeleted: bool)
    requires GroupSet(groups) == GroupSet(pair.groups)
    ensures Verify(pair.(groups := groups), listed, verifyDeleted) == Verify(pair, listed, verifyDeleted)
  {
    var other := pair.(groups := groups);
    assert forall e :: Matches(e, other) <==> Matches(e, pair);
  }

  /**
    A one-entry listing verifies a pair that should be present exactly when the
    entry carries its id and its fields, with the groups compared as sets.
   */
  lemma SingleEntryVerify(pair: TestCCPair, entry: IndexingStatus)
    ensures Verify(pair, [entry], false) == Verified <==>
      && entry.ccPairId == pair.id && entry.name == pair.name
      && entry.connectorId == pair.connectorId && entry.credentialId == pair.credentialId
      && entry.accessType == pair.accessType
      && (forall g :: g in entry.groups <==> g in pair.groups)
  {
    var l := [entry];
    assert forall i :: 0 <= i < |l| ==> l[i] == entry;
    assert GroupSet(entry.groups) == GroupSet(pair.groups) <==> (forall g :: g in entry.groups <==> g in pair.groups) by {
      if forall g :: g in entry.groups <==> g in pair.groups {
        assert GroupSet(entry.groups) == GroupSet(pair.groups);
      }
      if GroupSet(entry.groups) == GroupSet(pair.groups) {
        forall g ensures g in entry.groups <==> g in pair.groups {
          assert g in entry.groups <==> g in GroupSet(entry.groups);
          assert g in pair.groups <==> g in GroupSet(pair.groups);
        }
      }
    }
  }

  /** Groups [1, 2] on the handle and [2, 1, 1] on the listing entry are the same groups. */
  lemma ReorderedGroupsVerify(pair: TestCCPair, entry: IndexingStatus)
    requires pair.groups == [1, 2] && entry.groups == [2, 1, 1]
    requires entry.ccPairId == pair.id && entry.name == pair.name
    requires entry.connectorId == pair.connectorId && entry.credentialId == pair.credentialId
    requires entry.accessType == pair.accessType
    ensures Verify(pair, [entry], false) == Verified
  {
    SingleEntryVerify(pair, entry);
    forall g ensures g in entry.groups <==> g in pair.groups {
      assert g in [2, 1, 1] <==> g == 1 || g == 2;
    }
  }
}

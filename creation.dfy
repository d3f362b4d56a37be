/**
  The defaulting done when a pair is created: the name sent to the server and
  kept on the handle, and the group list that replaces a missing one. The
  request itself is a service call and stays outside; the id the server
  answers with is a parameter, and so is the text of the fresh UUID.
 */
module Creation {
  import opened Records
  import opened Lookup

  const PairSuffix := "-cc-pair"
  const DefaultPrefix := "test-cc-pair-"

  /** A name counts as given when it is present and not empty (Python truthiness). */
  predicate Named(name: Option<string>) {
    name.Some? && name.value != ""
  }

  /** The pair's name: the given name with "-cc-pair" appended, else "test-cc-pair-" and a fresh UUID. */
  function PairName(name: Option<string>, uuidText: string): (r: string)
    ensures Named(name) ==>
      |r| == |name.value| + |PairSuffix| && r[..|name.value|] == name.value && r[|name.value|..] == PairSuffix
    ensures !Named(name) ==>
      |r| == |DefaultPrefix| + |uuidText| && r[..|DefaultPrefix|] == DefaultPrefix && r[|DefaultPrefix|..] == uuidText
  {
    if Named(name) then name.value + PairSuffix else DefaultPrefix + uuidText
  }

  /**
    `groups or []`: a missing group list and an empty one are both sent as
    the empty list; any other list is sent unchanged.
   */
  function PairGroups(groups: Option<seq<int>>): (r: seq<int>)
    ensures groups.None? ==> r == []
    ensures groups.Some? ==> r == groups.value
  {
    if groups.Some? && groups.value != [] then groups.value else []
  }

  /** The given name back from a pair name, when it ends with the suffix. */
  function StripPairSuffix(s: string): Option<string> {
    if |s| >= |PairSuffix| && s[|s| - |PairSuffix|..] == PairSuffix then Some(s[..|s| - |PairSuffix|])
    else None
  }

  /** The body of the creation request. */
  datatype CreateRequest = CreateRequest(name: string, accessType: AccessType, groups: seq<int>)

  /**
    The request body: a given name is kept and can be read back, a missing
    one becomes "test-cc-pair-" and the UUID text, the access type is sent as
    chosen, and the group list sent is the one given, or empty when none is.
   */
  function CreationRequest(name: Option<string>, accessType: AccessType, groups: Option<seq<int>>, uuidText: string): (r: CreateRequest)
    ensures Named(name) ==> StripPairSuffix(r.name) == Some(name.value)
    ensures !Named(name) ==> r.name == DefaultPrefix + uuidText
    ensures r.accessType == accessType
    ensures r.groups == if groups.Some? then groups.value else []
    ensures GroupSet(r.groups) == if groups.Some? then GroupSet(groups.value) else {}
  {
    CreateRequest(PairName(name, uuidText), accessType, PairGroups(groups))
  }

  /**
    The handle built from the server's answer `newId`: it carries the id the
    server gave, the connector and credential it was paired from, and the
    very name, access type and groups the request sent.
   */
  function CreatedPair(
    connectorId: int, credentialId: int, name: Option<string>, accessType: AccessType,
    groups: Option<seq<int>>, uuidText: string, newId: int): (p: TestCCPair)
    ensures p.id == newId && p.connectorId == connectorId && p.credentialId == credentialId
    ensures var request := CreationRequest(name, accessType, groups, uuidText);
      p.name == request.name && p.accessType == request.accessType && p.groups == request.groups
  {
    TestCCPair(newId, PairName(name, uuidText), connectorId, credentialId, accessType, PairGroups(groups))
  }

  /** A given name is kept whole in the pair name and can be read back from it. */
  lemma GivenNameRecoverable(name: Option<string>, uuidText: string)
    requires Named(name)
    ensures StripPairSuffix(PairName(name, uuidText)) == Some(name.value)
  {
    var s := PairName(name, uuidText);
    assert s[..|s| - |PairSuffix|] == name.value;
    assert s[|s| - |PairSuffix|..] == PairSuffix;
  }

  /** Without a name, two pair names agree only when their UUID texts do. */
  lemma {:induction false} DefaultNamesFollowUuid(u1: string, u2: string)
    ensures PairName(None, u1) == PairName(None, u2) <==> u1 == u2
  {
    if PairName(None, u1) == PairName(None, u2) {
      var n := |DefaultPrefix|;
      assert u1 == (DefaultPrefix + u1)[n..];
      assert u2 == (DefaultPrefix + u2)[n..];
    }
  }

  /**
    The handle carries exactly the name and groups the request sent, so a
    listing whose entry echoes the request, with the groups in any order,
    verifies the handle.
   */
  lemma CreatedPairVerifies(
    connectorId: int, credentialId: int, name: Option<string>, accessType: AccessType,
    groups: Option<seq<int>>, uuidText: string, newId: int, listed: seq<IndexingStatus>, i: int)
    requires 0 <= i < |listed|
    requires listed[i].ccPairId == newId && listed[i].connectorId == connectorId
    requires listed[i].credentialId == credentialId
    requires listed[i].name == CreationRequest(name, accessType, groups, uuidText).name
    requires listed[i].accessType == CreationRequest(name, accessType, groups, uuidText).accessType
    requires GroupSet(listed[i].groups) == GroupSet(CreationRequest(name, accessType, groups, uuidText).groups)
    ensures Verify(CreatedPair(connectorId, credentialId, name, accessType, groups, uuidText, newId), listed, false) == Verified
  {
    assert Matches(listed[i], CreatedPair(connectorId, credentialId, name, accessType, groups, uuidText, newId));
  }
}

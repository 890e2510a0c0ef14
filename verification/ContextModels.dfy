/** The context unit every component passes around. */
module ContextModels {
  import opened PyCollections

  datatype MemoryType = Procedural | Episodic | Semantic | Variable

  datatype MemoryCategory = Profile | Preferences | Entities | Events | Cases | Patterns

  datatype ContextLevel = Abstract | Overview | Detail

  /** `role` is the `role` entry of the item's metadata, if it has one. */
  datatype ContextItem = ContextItem(
    itemId: string,
    sourceType: string,
    memoryType: Option<MemoryType>,
    category: Option<MemoryCategory>,
    level: ContextLevel,
    score: real,
    activeCount: int,
    content: string,
    role: Option<string>)

  /** No two items share an id. */
  ghost predicate DistinctIds(items: seq<ContextItem>) {
    forall i, j :: 0 <= i < j < |items| ==> items[i].itemId != items[j].itemId
  }

  datatype ContextSnapshot = ContextSnapshot(
    scopeId: string,
    sessionId: string,
    items: seq<ContextItem>,
    totalTokens: int,
    tokenBudget: int)

  // ----- keys of the form <prefix><scope>:<session>

  function ScopedKey(prefix: string, scopeId: string, sessionId: string): string {
    prefix + scopeId + ":" + sessionId
  }

  lemma LaterCharacter(k: string, i: int, j: int)
    ensures 0 <= i < j < |k| ==> k[j] in k[i + 1..]
  {
    if 0 <= i < j < |k| {
      assert k[i + 1..][j - i - 1] == k[j];
    }
  }

  /** Two sessions whose ids hold no colon never share a key, whatever their scopes hold. */
  lemma ScopedKeyInjective(prefix: string, scope1: string, session1: string, scope2: string, session2: string)
    requires ':' !in session1 && ':' !in session2
    requires ScopedKey(prefix, scope1, session1) == ScopedKey(prefix, scope2, session2)
    ensures scope1 == scope2 && session1 == session2
  {
    var k := ScopedKey(prefix, scope1, session1);
    var n1, n2 := |prefix| + |scope1|, |prefix| + |scope2|;
    assert k[n1] == ':' && k[n2] == ':';
    assert k[n1 + 1..] == session1 && k[n2 + 1..] == session2;
    LaterCharacter(k, n1, n2);
    LaterCharacter(k, n2, n1);
    assert k[|prefix|..n1] == scope1 && k[|prefix|..n2] == scope2;
  }

  /** A session id that does hold a colon shares its key with a session of another scope. */
  lemma ScopedKeyCollides(prefix: string, scopeId: string, sessionId: string)
    requires ':' in sessionId
    ensures exists scope2, session2 ::
      scope2 != scopeId && ScopedKey(prefix, scope2, session2) == ScopedKey(prefix, scopeId, sessionId)
  {
    var i :| 0 <= i < |sessionId| && sessionId[i] == ':';
    var scope2, session2 := scopeId + ":" + sessionId[..i], sessionId[i + 1..];
    assert sessionId == sessionId[..i] + ":" + sessionId[i + 1..];
    assert ScopedKey(prefix, scope2, session2) == ScopedKey(prefix, scopeId, sessionId);
    assert |scope2| > |scopeId|;
  }
}

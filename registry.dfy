/** The registry of key bindings (src/Keymap.ts).

    A `Keymap` owns the list of normalized entries.  `trigger`, `has` and
    the private `findIndex` search it; `add`, `remove` and `clear` change
    it in place.  The platform is read through a user-agent parameter on
    every operation that normalizes a key string. */
module Registry {
  import opened Types
  import opened Utils

  // ---------------------------------------------------------------------
  // Normalized entries
  // ---------------------------------------------------------------------

  /** An entry as `handleMaps` builds it under `userAgent`: the caller's
      string kept as `rawKeys`, its lowercase form as `keys`, and its
      resolved tokens as `keyList`. */
  predicate Normalized(e: HandledKeyMap, userAgent: string) {
    e.keys == Lower(e.rawKeys) && e.keyList == HandleKeys(e.rawKeys, userAgent).1
  }

  /** One element of `handleMaps`. */
  function HandleMap(m: KeyMap, userAgent: string): (e: HandledKeyMap)
    ensures Normalized(e, userAgent)
    ensures e.rawKeys == m.keys && e.handler == m.handler && e.desc == m.desc
  {
    var hk := HandleKeys(m.keys, userAgent);
    HandledKeyMap(m.keys, hk.0, hk.1, m.handler, m.desc)
  }

  /** `handleMaps`: one normalized entry per binding, in order. */
  function HandleMaps(maps: seq<KeyMap>, userAgent: string): (r: seq<HandledKeyMap>)
    ensures |r| == |maps|
    ensures forall i :: 0 <= i < |maps| ==>
      Normalized(r[i], userAgent) && r[i].rawKeys == maps[i].keys &&
      r[i].handler == maps[i].handler && r[i].desc == maps[i].desc
  {
    seq(|maps|, i requires 0 <= i < |maps| => HandleMap(maps[i], userAgent))
  }

  // ---------------------------------------------------------------------
  // The two lookup rules
  // ---------------------------------------------------------------------

  /** As many query tokens as entry tokens, and every query token among
      the entry's. */
  predicate QueryTokensIn(e: HandledKeyMap, tokens: seq<string>) {
    |tokens| == |e.keyList| && forall k :: k in tokens ==> k in e.keyList
  }

  /** As many entry tokens as query tokens, and every entry token among
      the query's. */
  predicate EntryTokensIn(e: HandledKeyMap, tokens: seq<string>) {
    |e.keyList| == |tokens| && forall k :: k in e.keyList ==> k in tokens
  }

  /** The test of `findIndex`: the raw string, the canonical string, or
      the query's tokens contained in the entry's.  `hk` is the
      normalized query. */
  predicate FindRule(e: HandledKeyMap, keys: string, hk: (string, seq<string>)) {
    e.rawKeys == keys || e.keys == hk.0 || QueryTokensIn(e, hk.1)
  }

  /** The test of `trigger`: the canonical string, or the entry's tokens
      contained in the query's. */
  predicate TriggerRule(e: HandledKeyMap, hk: (string, seq<string>)) {
    e.keys == hk.0 || EntryTokensIn(e, hk.1)
  }

  /** The tokens depend on the key string only through its lowercase
      form. */
  lemma HandleKeysOfLower(a: string, b: string, userAgent: string)
    requires Lower(a) == Lower(b)
    ensures HandleKeys(a, userAgent) == HandleKeys(b, userAgent)
  {
  }

  /** On a normalized entry the raw and canonical rules of `findIndex`
      add nothing: the query matches exactly when its tokens are
      contained in the entry's. */
  lemma FindRuleNormalized(e: HandledKeyMap, keys: string, userAgent: string)
    requires Normalized(e, userAgent)
    ensures FindRule(e, keys, HandleKeys(keys, userAgent)) <==>
      QueryTokensIn(e, HandleKeys(keys, userAgent).1)
  {
    if e.keys == HandleKeys(keys, userAgent).0 {
      HandleKeysOfLower(e.rawKeys, keys, userAgent);
    }
  }

  /** On a normalized entry the canonical rule of `trigger` adds nothing:
      the entry fires exactly when its tokens are contained in the
      query's. */
  lemma TriggerRuleNormalized(e: HandledKeyMap, keys: string, userAgent: string)
    requires Normalized(e, userAgent)
    ensures TriggerRule(e, HandleKeys(keys, userAgent)) <==>
      EntryTokensIn(e, HandleKeys(keys, userAgent).1)
  {
    if e.keys == HandleKeys(keys, userAgent).0 {
      HandleKeysOfLower(e.rawKeys, keys, userAgent);
    }
  }

  /** An entry without repeated tokens that `trigger` fires is also one
      that `findIndex` finds. */
  lemma TriggerRuleFindRule(e: HandledKeyMap, keys: string, userAgent: string)
    requires Normalized(e, userAgent) && Distinct(e.keyList)
    requires TriggerRule(e, HandleKeys(keys, userAgent))
    ensures FindRule(e, keys, HandleKeys(keys, userAgent))
  {
    var tokens := HandleKeys(keys, userAgent).1;
    TriggerRuleNormalized(e, keys, userAgent);
    CoveredBothWays(e.keyList, tokens);
  }

  /** The converse fails: for the binding `a+b`, the query `a+a` is found
      by `findIndex` (both its tokens are among the entry's) but fires
      nothing (the entry's `b` is not among the query's), whatever two
      distinct plain keys `a` and `b` are. */
  lemma FindRuleNotTriggerRule(a: string, b: string, userAgent: string, handler: HandlerId, desc: Option<string>)
    requires PlainToken(a) && PlainToken(b)
    requires Replace(Lower(a), PlatformModifier(userAgent)) != Replace(Lower(b), PlatformModifier(userAgent))
    ensures var e := HandleMap(KeyMap(a + "+" + b, handler, desc), userAgent);
      var hk := HandleKeys(a + "+" + a, userAgent);
      FindRule(e, a + "+" + a, hk) && !TriggerRule(e, hk)
  {
    var e := HandleMap(KeyMap(a + "+" + b, handler, desc), userAgent);
    var hk := HandleKeys(a + "+" + a, userAgent);
    HandleKeysTwo(a, b, userAgent);
    HandleKeysTwo(a, a, userAgent);
    var ka := Replace(Lower(a), PlatformModifier(userAgent));
    assert e.keyList == [ka, Replace(Lower(b), PlatformModifier(userAgent))];
    assert hk.1 == [ka, ka];
    assert QueryTokensIn(e, hk.1);
    TriggerRuleNormalized(e, a + "+" + a, userAgent);
    assert e.keyList[1] !in hk.1;
  }

  // ---------------------------------------------------------------------
  // The registry
  // ---------------------------------------------------------------------

  class Keymap {
    var handledMaps: seq<HandledKeyMap>
    const strategy: KeymapStrategy

    /** Every entry is normalized under `userAgent`. */
    ghost predicate Valid(userAgent: string)
      reads this
    {
      forall i :: 0 <= i < |handledMaps| ==> Normalized(handledMaps[i], userAgent)
    }

    /** The bindings are normalized, in order; no listener is attached. */
    constructor(maps: seq<KeyMap>, strategy: KeymapStrategy, userAgent: string)
      ensures handledMaps == HandleMaps(maps, userAgent)
      ensures this.strategy == strategy
      ensures Valid(userAgent)
    {
      handledMaps := HandleMaps(maps, userAgent);
      this.strategy := strategy;
    }

    /** `findIndex`: the position of the first entry that the query
        matches by raw string, canonical string or contained tokens, or
        -1. */
    function FindIndex(keys: string, userAgent: string): (r: int)
      reads this
      ensures -1 <= r < |handledMaps|
      ensures var hk := HandleKeys(keys, userAgent);
        r == -1 <==> forall i :: 0 <= i < |handledMaps| ==> !FindRule(handledMaps[i], keys, hk)
      ensures var hk := HandleKeys(keys, userAgent);
        0 <= r ==> (FindRule(handledMaps[r], keys, hk) &&
                    forall j :: 0 <= j < r ==> !FindRule(handledMaps[j], keys, hk))
    {
      var hk := HandleKeys(keys, userAgent);
      match FirstIndex(handledMaps, e => FindRule(e, keys, hk))
      case None => -1
      case Some(i) => i
    }

    /** `has`: some entry matches the query by one of the three rules. */
    function Has(keys: string, userAgent: string): (r: bool)
      reads this
      ensures r <==> exists i ::
        0 <= i < |handledMaps| && FindRule(handledMaps[i], keys, HandleKeys(keys, userAgent))
    {
      FindIndex(keys, userAgent) > -1
    }

    /** `trigger`: the entry whose handler is called, the first that
        matches by canonical string or by its tokens contained in the
        query's; None when no entry matches. */
    function Trigger(keys: string, userAgent: string): (fired: Option<nat>)
      reads this
      ensures var hk := HandleKeys(keys, userAgent);
        IsFirst(handledMaps, e => TriggerRule(e, hk), fired)
    {
      var hk := HandleKeys(keys, userAgent);
      FirstIndex(handledMaps, e => TriggerRule(e, hk))
    }

    /** The `maps` getter: every entry in order, without its handler. */
    function Maps(): (r: seq<MapSnapshot>)
      reads this
      ensures |r| == |handledMaps|
      ensures forall i :: 0 <= i < |r| ==>
        r[i].rawKeys == handledMaps[i].rawKeys && r[i].keys == handledMaps[i].keys &&
        r[i].keyList == handledMaps[i].keyList && r[i].desc == handledMaps[i].desc
    {
      var entries := handledMaps;
      seq(|entries|, i requires 0 <= i < |entries| =>
        MapSnapshot(entries[i].rawKeys, entries[i].keys, entries[i].keyList, entries[i].desc))
    }

    /** `add`: a binding the registry already `has` is refused; any other
        is normalized and appended.  Either way the registry `has` it
        afterwards. */
    method Add(m: KeyMap, userAgent: string) returns (added: bool)
      modifies this
      ensures added == !old(Has(m.keys, userAgent))
      ensures added ==> handledMaps == old(handledMaps) + [HandleMap(m, userAgent)]
      ensures !added ==> handledMaps == old(handledMaps)
      ensures Has(m.keys, userAgent)
      ensures old(Valid(userAgent)) ==> Valid(userAgent)
    {
      var exist := Has(m.keys, userAgent);
      if !exist {
        handledMaps := handledMaps + HandleMaps([m], userAgent);
        var last := |handledMaps| - 1;
        assert handledMaps[last] == HandleMap(m, userAgent);
        assert FindRule(handledMaps[last], m.keys, HandleKeys(m.keys, userAgent));
      }
      added := !exist;
    }

    /** `remove`: the first entry `findIndex` reports is cut out, the
        others keep their order; nothing changes when none matches. */
    method Remove(keys: string, userAgent: string)
      modifies this
      ensures old(FindIndex(keys, userAgent)) == -1 ==> handledMaps == old(handledMaps)
      ensures var i := old(FindIndex(keys, userAgent));
        0 <= i ==> handledMaps == old(handledMaps[..i]) + old(handledMaps[i + 1..])
      ensures old(Valid(userAgent)) ==> Valid(userAgent)
    {
      var index := FindIndex(keys, userAgent);
      if index == -1 {
        return;
      }
      handledMaps := handledMaps[..index] + handledMaps[index + 1..];
    }

    /** `clear`: the list is emptied, so nothing is found and nothing
        fires any more. */
    method Clear()
      modifies this
      ensures handledMaps == []
      ensures forall keys, userAgent :: !Has(keys, userAgent) && Trigger(keys, userAgent) == None
    {
      handledMaps := [];
    }
  }

  // ---------------------------------------------------------------------
  // Consequences for a whole registry
  // ---------------------------------------------------------------------

  /** In a registry of normalized entries without repeated tokens, every
      key string that triggers a binding is one the registry `has`. */
  lemma TriggerImpliesHas(km: Keymap, keys: string, userAgent: string)
    requires km.Valid(userAgent)
    requires forall i :: 0 <= i < |km.handledMaps| ==> Distinct(km.handledMaps[i].keyList)
    ensures km.Trigger(keys, userAgent).Some? ==> km.Has(keys, userAgent)
  {
    var hk := HandleKeys(keys, userAgent);
    if km.Trigger(keys, userAgent).Some? {
      var i := km.Trigger(keys, userAgent).value;
      assert TriggerRule(km.handledMaps[i], hk);
      TriggerRuleFindRule(km.handledMaps[i], keys, userAgent);
    }
  }

  // ---------------------------------------------------------------------
  // The registry tests
  // ---------------------------------------------------------------------

  /** A binding `x+k` is found and triggered by any query `y+k` whose
      first key resolves like `x` (`Control+a`, `control+a`, `ctrl+a`). */
  lemma SameResolutionMatches(x: string, y: string, k: string, userAgent: string, handler: HandlerId)
    requires PlainToken(x) && PlainToken(y) && PlainToken(k)
    requires Replace(Lower(x), PlatformModifier(userAgent)) == Replace(Lower(y), PlatformModifier(userAgent))
    ensures var e := HandleMap(KeyMap(x + "+" + k, handler, None), userAgent);
      var hk := HandleKeys(y + "+" + k, userAgent);
      FindRule(e, y + "+" + k, hk) && TriggerRule(e, hk)
  {
    var e := HandleMap(KeyMap(x + "+" + k, handler, None), userAgent);
    HandleKeysTwo(x, k, userAgent);
    HandleKeysTwo(y, k, userAgent);
    assert e.keyList == HandleKeys(y + "+" + k, userAgent).1;
  }

  /** A binding `x+k` is not found by a query `y+l` whose second key
      resolves to neither of the binding's tokens (`ctrl+b` against
      `Control+a`). */
  lemma OtherKeyMisses(x: string, y: string, k: string, l: string, userAgent: string, handler: HandlerId)
    requires PlainToken(x) && PlainToken(y) && PlainToken(k) && PlainToken(l)
    requires var moc := PlatformModifier(userAgent);
      Replace(Lower(l), moc) != Replace(Lower(x), moc) && Replace(Lower(l), moc) != Replace(Lower(k), moc)
    ensures var e := HandleMap(KeyMap(x + "+" + k, handler, None), userAgent);
      !FindRule(e, y + "+" + l, HandleKeys(y + "+" + l, userAgent))
  {
    var e := HandleMap(KeyMap(x + "+" + k, handler, None), userAgent);
    HandleKeysTwo(x, k, userAgent);
    HandleKeysTwo(y, l, userAgent);
    FindRuleNormalized(e, y + "+" + l, userAgent);
    assert HandleKeys(y + "+" + l, userAgent).1[1] !in e.keyList;
  }

  /** A binding `x+k` is not triggered by a query `y+l` when its second
      key resolves to neither of the query's tokens (`Control+a` against
      `Control+b`). */
  lemma OtherKeyDoesNotTrigger(x: string, y: string, k: string, l: string, userAgent: string, handler: HandlerId)
    requires PlainToken(x) && PlainToken(y) && PlainToken(k) && PlainToken(l)
    requires var moc := PlatformModifier(userAgent);
      Replace(Lower(k), moc) != Replace(Lower(y), moc) && Replace(Lower(k), moc) != Replace(Lower(l), moc)
    ensures var e := HandleMap(KeyMap(x + "+" + k, handler, None), userAgent);
      !TriggerRule(e, HandleKeys(y + "+" + l, userAgent))
  {
    var e := HandleMap(KeyMap(x + "+" + k, handler, None), userAgent);
    HandleKeysTwo(x, k, userAgent);
    HandleKeysTwo(y, l, userAgent);
    TriggerRuleNormalized(e, y + "+" + l, userAgent);
    assert e.keyList[1] !in HandleKeys(y + "+" + l, userAgent).1;
  }

  /** The binding `Control+a` is found by its lowercase form. */
  lemma HasLowercaseSpelling(control: string, a: string, userAgent: string, handler: HandlerId)
    requires PlainToken(control) && PlainToken(a) && Lower(control) == "control"
    ensures var e := HandleMap(KeyMap(control + "+" + a, handler, None), userAgent);
      FindRule(e, Lower(control) + "+" + a, HandleKeys(Lower(control) + "+" + a, userAgent))
  {
    ResolveControlExamples(userAgent);
    ResolveLetterExamples(userAgent);
    LowerIdempotent(control);
    LowerPlain(control);
    SameResolutionMatches(control, Lower(control), a, userAgent, handler);
  }

  /** The binding `Control+a` is found as `ctrl+a`. */
  lemma HasCtrlSpelling(control: string, ctrl: string, a: string, userAgent: string, handler: HandlerId)
    requires PlainToken(control) && PlainToken(ctrl) && PlainToken(a)
    requires Lower(control) == "control" && Lower(ctrl) == "ctrl"
    ensures var e := HandleMap(KeyMap(control + "+" + a, handler, None), userAgent);
      FindRule(e, ctrl + "+" + a, HandleKeys(ctrl + "+" + a, userAgent))
  {
    ResolveControlExamples(userAgent);
    ResolveLetterExamples(userAgent);
    SameResolutionMatches(control, ctrl, a, userAgent, handler);
  }

  /** The binding `Control+a` is not found as `ctrl+b`. */
  lemma HasMissesOtherKey(control: string, ctrl: string, a: string, b: string, userAgent: string, handler: HandlerId)
    requires PlainToken(control) && PlainToken(ctrl) && PlainToken(a) && PlainToken(b)
    requires Lower(control) == "control" && Lower(ctrl) == "ctrl"
    requires Lower(a) == "a" && Lower(b) == "b"
    ensures var e := HandleMap(KeyMap(control + "+" + a, handler, None), userAgent);
      !FindRule(e, ctrl + "+" + b, HandleKeys(ctrl + "+" + b, userAgent))
  {
    ResolveControlExamples(userAgent);
    ResolveLetterExamples(userAgent);
    OtherKeyMisses(control, ctrl, a, b, userAgent, handler);
  }

  /** The `has` test: a binding registered as `Control+a` (in any case) is
      found as written, in lowercase and spelled `ctrl+a`, and not as
      `ctrl+b`. */
  method HasScenario(control: string, ctrl: string, a: string, b: string, userAgent: string, handler: HandlerId)
    returns (results: seq<bool>)
    requires PlainToken(control) && PlainToken(ctrl) && PlainToken(a) && PlainToken(b)
    requires Lower(control) == "control" && Lower(ctrl) == "ctrl"
    requires Lower(a) == "a" && Lower(b) == "b"
    ensures results == [true, true, true, false]
  {
    var e := HandleMap(KeyMap(control + "+" + a, handler, None), userAgent);
    var km := new Keymap([KeyMap(control + "+" + a, handler, None)], RecordCompose, userAgent);
    assert km.handledMaps == [e];
    HasLowercaseSpelling(control, a, userAgent, handler);
    HasCtrlSpelling(control, ctrl, a, userAgent, handler);
    HasMissesOtherKey(control, ctrl, a, b, userAgent, handler);
    var r1 := km.Has(control + "+" + a, userAgent);
    var r2 := km.Has(Lower(control) + "+" + a, userAgent);
    var r3 := km.Has(ctrl + "+" + a, userAgent);
    var r4 := km.Has(ctrl + "+" + b, userAgent);
    results := [r1, r2, r3, r4];
  }

  /** `Control+b` does not trigger `Control+a` but does trigger
      `ctrl+b`. */
  lemma TriggerAddedBinding(control: string, ctrl: string, a: string, b: string, userAgent: string, handler: HandlerId)
    requires PlainToken(control) && PlainToken(ctrl) && PlainToken(a) && PlainToken(b)
    requires Lower(control) == "control" && Lower(ctrl) == "ctrl"
    requires Lower(a) == "a" && Lower(b) == "b"
    ensures var hk := HandleKeys(control + "+" + b, userAgent);
      !TriggerRule(HandleMap(KeyMap(control + "+" + a, handler, None), userAgent), hk) &&
      TriggerRule(HandleMap(KeyMap(ctrl + "+" + b, handler, None), userAgent), hk)
  {
    ResolveControlExamples(userAgent);
    ResolveLetterExamples(userAgent);
    OtherKeyDoesNotTrigger(control, control, a, b, userAgent, handler);
    SameResolutionMatches(ctrl, control, b, userAgent, handler);
  }

  /** The `base` and `clear` tests: a binding registered as `Control+a`
      fires on each of three triggers with the same string, and on none
      after `clear`. */
  method TriggerClearScenario(control: string, a: string, userAgent: string, handler: HandlerId)
    returns (before: seq<Option<nat>>, after: seq<Option<nat>>)
    ensures before == [Some(0), Some(0), Some(0)]
    ensures after == [None, None]
  {
    var e := HandleMap(KeyMap(control + "+" + a, handler, None), userAgent);
    var km := new Keymap([KeyMap(control + "+" + a, handler, None)], RecordCompose, userAgent);
    assert km.handledMaps == [e];
    assert TriggerRule(e, HandleKeys(control + "+" + a, userAgent));
    var t1 := km.Trigger(control + "+" + a, userAgent);
    var t2 := km.Trigger(control + "+" + a, userAgent);
    var t3 := km.Trigger(control + "+" + a, userAgent);
    before := [t1, t2, t3];
    km.Clear();
    var t4 := km.Trigger(control + "+" + a, userAgent);
    var t5 := km.Trigger(control + "+" + a, userAgent);
    after := [t4, t5];
  }

  /** The `add` test: `ctrl+b` is new next to `Control+a`, so it is
      appended; the registry then has it, and `Control+b` triggers it. */
  method AddScenario(control: string, ctrl: string, a: string, b: string, userAgent: string, handler: HandlerId)
    returns (added: bool, found: bool, fired: Option<nat>)
    requires PlainToken(control) && PlainToken(ctrl) && PlainToken(a) && PlainToken(b)
    requires Lower(control) == "control" && Lower(ctrl) == "ctrl"
    requires Lower(a) == "a" && Lower(b) == "b"
    ensures added && found
    ensures fired == Some(1)
  {
    var e0 := HandleMap(KeyMap(control + "+" + a, handler, None), userAgent);
    var e1 := HandleMap(KeyMap(ctrl + "+" + b, handler, None), userAgent);
    var km := new Keymap([KeyMap(control + "+" + a, handler, None)], RecordCompose, userAgent);
    assert km.handledMaps == [e0];
    HasMissesOtherKey(control, ctrl, a, b, userAgent, handler);
    added := km.Add(KeyMap(ctrl + "+" + b, handler, None), userAgent);
    assert km.handledMaps == [e0, e1];
    found := km.Has(ctrl + "+" + b, userAgent);
    TriggerAddedBinding(control, ctrl, a, b, userAgent, handler);
    var hk := HandleKeys(control + "+" + b, userAgent);
    fired := km.Trigger(control + "+" + b, userAgent);
    IsFirstSecond(e0, e1, e => TriggerRule(e, hk), fired);
  }
}

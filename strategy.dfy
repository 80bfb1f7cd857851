/** The two key-tracking strategies (src/strategy.ts).

    Each strategy keeps a set of held keys that three events change:
    keydown, keyup and blur.  On keydown it looks through the registered
    entries, in order, for the first one that fires.  Listener wiring is
    left out: an event is a method call, and the entries the listener
    would read at that moment are passed in. */
module Strategy {
  import opened Types
  import opened Utils

  // ---------------------------------------------------------------------
  // recordAll
  // ---------------------------------------------------------------------

  /** An entry fires under recordAll when its token list is as long as the
      held set and every one of its tokens is held. */
  predicate AllMatch(e: HandledKeyMap, held: set<string>) {
    |e.keyList| == |held| && forall k :: k in e.keyList ==> k in held
  }

  /** An entry without repeated tokens fires under recordAll exactly when
      the held keys are its tokens. */
  lemma AllMatchExact(e: HandledKeyMap, held: set<string>)
    requires Distinct(e.keyList)
    ensures AllMatch(e, held) <==> Elements(e.keyList) == held
  {
    ElementsCard(e.keyList);
    if AllMatch(e, held) {
      SubsetCard(Elements(e.keyList), held);
    }
  }

  /** The state of a recordAll listener: every key currently held down. */
  class RecordAllListener {
    var keySet: set<string>

    constructor()
      ensures keySet == {}
    {
      keySet := {};
    }

    /** The lowercased key joins the held set, then the first entry that
        matches the new set fires. */
    method KeyDown(key: string, maps: seq<HandledKeyMap>) returns (fired: Option<nat>)
      modifies this
      ensures keySet == old(keySet) + {Lower(key)}
      ensures var held := keySet; IsFirst(maps, e => AllMatch(e, held), fired)
    {
      keySet := keySet + {Lower(key)};
      var held := keySet;
      fired := FirstIndex(maps, e => AllMatch(e, held));
    }

    /** The released key leaves the held set; releasing `meta` forgets
        every key, since other keys released while meta is down send no
        keyup on a mac. */
    method KeyUp(key: string)
      modifies this
      ensures Lower(key) == "meta" ==> keySet == {}
      ensures Lower(key) != "meta" ==> keySet == old(keySet) - {Lower(key)}
    {
      var k := Lower(key);
      keySet := keySet - {k};
      if k == "meta" {
        keySet := {};
      }
    }

    /** Losing focus forgets every held key. */
    method Blur()
      modifies this
      ensures keySet == {}
    {
      keySet := {};
    }
  }

  // ---------------------------------------------------------------------
  // recordCompose
  // ---------------------------------------------------------------------

  /** The modifier keys, the only keys recordCompose remembers. */
  const ComposeKeys: set<string> := {"alt", "shift", "control", "meta"}

  /** `isComposeKey`. */
  predicate IsComposeKey(key: string) {
    key in ComposeKeys
  }

  /** What `classifyKey` makes of a token list: its plain key and its
      modifiers. */
  datatype Classified = Classified(key: string, composeKeys: seq<string>)

  /** One step of the `reduce` in `classifyKey`. */
  function ClassifyStep(res: Classified, key: string): Classified {
    var k := Lower(key);
    if IsComposeKey(k) then Classified(res.key, res.composeKeys + [k])
    else Classified(k, res.composeKeys)
  }

  /** The `reduce` from accumulator `res` over the remaining tokens. */
  function ClassifyFrom(res: Classified, keyList: seq<string>): Classified
    decreases |keyList|
  {
    if keyList == [] then res
    else ClassifyFrom(ClassifyStep(res, keyList[0]), keyList[1..])
  }

  /** `classifyKey` itself, starting from `{ key: '', composeKeys: [] }`. */
  function ClassifyKey(keyList: seq<string>): Classified {
    ClassifyFrom(Classified("", []), keyList)
  }

  /** Token `i`, lowercased, is a modifier. */
  predicate ModifierAt(keyList: seq<string>, i: int)
    requires 0 <= i < |keyList|
  {
    IsComposeKey(Lower(keyList[i]))
  }

  /** The lowercased modifier tokens of a list, in order. */
  function Modifiers(keyList: seq<string>): (r: seq<string>)
    decreases |keyList|
  {
    if keyList == [] then []
    else (if ModifierAt(keyList, 0) then [Lower(keyList[0])] else []) + Modifiers(keyList[1..])
  }

  /** Every token of the list is a modifier. */
  predicate AllModifiers(keyList: seq<string>) {
    forall i :: 0 <= i < |keyList| ==> ModifierAt(keyList, i)
  }

  /** Token `i` is the last token that is not a modifier. */
  predicate LastPlainAt(keyList: seq<string>, i: int) {
    0 <= i < |keyList| && !ModifierAt(keyList, i) &&
    forall j :: i < j < |keyList| ==> ModifierAt(keyList, j)
  }

  /** Every element of `Modifiers` is a modifier. */
  lemma {:induction false} ModifiersAreComposeKeys(keyList: seq<string>)
    ensures forall k :: k in Modifiers(keyList) ==> IsComposeKey(k)
    decreases |keyList|
  {
    if keyList != [] {
      ModifiersAreComposeKeys(keyList[1..]);
    }
  }

  /** The fold appends the modifiers to the accumulator's, in order. */
  lemma {:induction false} ClassifyFromModifiers(res: Classified, keyList: seq<string>)
    ensures ClassifyFrom(res, keyList).composeKeys == res.composeKeys + Modifiers(keyList)
    decreases |keyList|
  {
    if keyList != [] {
      var step := ClassifyStep(res, keyList[0]);
      ClassifyFromModifiers(step, keyList[1..]);
      assert res.composeKeys + Modifiers(keyList) == step.composeKeys + Modifiers(keyList[1..]);
    }
  }

  /** Dropping the first token keeps the classification of the others. */
  lemma ModifierAtTail(keyList: seq<string>)
    requires keyList != []
    ensures forall i :: 0 < i < |keyList| ==> ModifierAt(keyList, i) == ModifierAt(keyList[1..], i - 1)
  {
    forall i | 0 < i < |keyList|
      ensures ModifierAt(keyList, i) == ModifierAt(keyList[1..], i - 1)
    {
      assert keyList[1..][i - 1] == keyList[i];
    }
  }

  /** Over modifiers only, the fold keeps the accumulator's key. */
  lemma {:induction false} ClassifyFromAllModifiers(res: Classified, keyList: seq<string>)
    requires AllModifiers(keyList)
    ensures ClassifyFrom(res, keyList).key == res.key
    decreases |keyList|
  {
    if keyList != [] {
      assert ModifierAt(keyList, 0);
      ModifierAtTail(keyList);
      assert AllModifiers(keyList[1..]) by {
        forall i | 0 <= i < |keyList| - 1 ensures ModifierAt(keyList[1..], i) {
          assert ModifierAt(keyList, i + 1);
        }
      }
      ClassifyFromAllModifiers(ClassifyStep(res, keyList[0]), keyList[1..]);
    }
  }

  /** The fold ends with the key of the last plain token. */
  lemma {:induction false} ClassifyFromLastPlain(res: Classified, keyList: seq<string>, i: int)
    requires LastPlainAt(keyList, i)
    ensures ClassifyFrom(res, keyList).key == Lower(keyList[i])
    decreases |keyList|
  {
    var rest := keyList[1..];
    var step := ClassifyStep(res, keyList[0]);
    ModifierAtTail(keyList);
    if i == 0 {
      assert AllModifiers(rest) by {
        forall j | 0 <= j < |rest| ensures ModifierAt(rest, j) {
          assert ModifierAt(keyList, j + 1);
        }
      }
      ClassifyFromAllModifiers(step, rest);
    } else {
      assert LastPlainAt(rest, i - 1) by {
        assert !ModifierAt(rest, i - 1);
        forall j | i - 1 < j < |rest| ensures ModifierAt(rest, j) {
          assert ModifierAt(keyList, j + 1);
        }
      }
      ClassifyFromLastPlain(step, rest, i - 1);
    }
  }

  /** `classifyKey` keeps the modifiers in order and the *last* plain
      token as the key, or `''` when there is none. */
  lemma ClassifyKeySpec(keyList: seq<string>)
    ensures ClassifyKey(keyList).composeKeys == Modifiers(keyList)
    ensures forall k :: k in ClassifyKey(keyList).composeKeys ==> IsComposeKey(k)
    ensures AllModifiers(keyList) ==> ClassifyKey(keyList).key == ""
    ensures forall i :: LastPlainAt(keyList, i) ==> ClassifyKey(keyList).key == Lower(keyList[i])
  {
    ClassifyFromModifiers(Classified("", []), keyList);
    ModifiersAreComposeKeys(keyList);
    if AllModifiers(keyList) {
      ClassifyFromAllModifiers(Classified("", []), keyList);
    }
    forall i | LastPlainAt(keyList, i) ensures ClassifyKey(keyList).key == Lower(keyList[i]) {
      ClassifyFromLastPlain(Classified("", []), keyList, i);
    }
  }

  /** A modifier followed by a plain key classifies as that key with
      that modifier (`ctrl+r`). */
  lemma ClassifyModifierKey(m: string, k: string)
    requires IsComposeKey(Lower(m)) && !IsComposeKey(Lower(k))
    ensures ClassifyKey([m, k]) == Classified(Lower(k), [Lower(m)])
  {
    var s1 := ClassifyStep(Classified("", []), m);
    var s2 := ClassifyStep(s1, k);
    assert s1 == Classified("", [Lower(m)]);
    assert [m, k][1..] == [k];
    assert ClassifyFrom(s1, [k]) == s2;
  }

  /** A modifier followed by two plain keys classifies as the *second*
      key: `ctrl+r+c` is the key `c` with the modifier `control`, and the
      `r` is overwritten. */
  lemma ClassifyModifierKeyKey(m: string, r: string, c: string)
    requires IsComposeKey(Lower(m)) && !IsComposeKey(Lower(r)) && !IsComposeKey(Lower(c))
    ensures ClassifyKey([m, r, c]) == Classified(Lower(c), [Lower(m)])
  {
    var s1 := ClassifyStep(Classified("", []), m);
    var s2 := ClassifyStep(s1, r);
    var s3 := ClassifyStep(s2, c);
    assert [m, r, c][1..] == [r, c];
    assert [r, c][1..] == [c];
    assert ClassifyFrom(s2, [c]) == s3;
    assert ClassifyFrom(s1, [r, c]) == s3;
  }

  /** An entry fires under recordCompose when its classified key is the
      pressed key and its modifier list is as long as the held set and
      entirely held. */
  predicate ComposeMatch(e: HandledKeyMap, key: string, held: set<string>) {
    var ck := ClassifyKey(e.keyList);
    ck.key == key && |ck.composeKeys| == |held| &&
    forall k :: k in ck.composeKeys ==> k in held
  }

  /** An entry whose modifiers do not repeat fires under recordCompose
      exactly when the pressed key is its last plain token (lowercased, or
      `''` when it has none) and the held modifiers are its modifiers. */
  lemma ComposeMatchExact(e: HandledKeyMap, key: string, held: set<string>)
    requires Distinct(Modifiers(e.keyList))
    ensures ComposeMatch(e, key, held) <==>
      ClassifyKey(e.keyList).key == key && Elements(Modifiers(e.keyList)) == held
  {
    ClassifyKeySpec(e.keyList);
    var mods := Modifiers(e.keyList);
    ElementsCard(mods);
    if ComposeMatch(e, key, held) {
      SubsetCard(Elements(mods), held);
    }
  }

  /** The state of a recordCompose listener: the modifiers held down. */
  class RecordComposeListener {
    var pressComposeKeySet: set<string>

    /** Only modifiers are ever remembered. */
    ghost predicate Valid()
      reads this
    {
      pressComposeKeySet <= ComposeKeys
    }

    constructor()
      ensures Valid()
      ensures pressComposeKeySet == {}
    {
      pressComposeKeySet := {};
    }

    /** A modifier joins the held set and nothing fires; any other key
        fires the first entry that matches it with the held modifiers. */
    method KeyDown(key: string, maps: seq<HandledKeyMap>) returns (fired: Option<nat>)
      requires Valid()
      modifies this
      ensures Valid()
      ensures IsComposeKey(Lower(key)) ==>
        pressComposeKeySet == old(pressComposeKeySet) + {Lower(key)} && fired == None
      ensures !IsComposeKey(Lower(key)) ==>
        pressComposeKeySet == old(pressComposeKeySet) &&
        var held := pressComposeKeySet;
        IsFirst(maps, e => ComposeMatch(e, Lower(key), held), fired)
    {
      var k := Lower(key);
      if IsComposeKey(k) {
        pressComposeKeySet := pressComposeKeySet + {k};
        return None;
      }
      var held := pressComposeKeySet;
      fired := FirstIndex(maps, e => ComposeMatch(e, k, held));
    }

    /** A released modifier leaves the held set; any other release
        changes nothing. */
    method KeyUp(key: string)
      requires Valid()
      modifies this
      ensures Valid()
      ensures IsComposeKey(Lower(key)) ==>
        pressComposeKeySet == old(pressComposeKeySet) - {Lower(key)}
      ensures !IsComposeKey(Lower(key)) ==> pressComposeKeySet == old(pressComposeKeySet)
    {
      var k := Lower(key);
      if IsComposeKey(k) {
        pressComposeKeySet := pressComposeKeySet - {k};
      }
    }

    /** Losing focus forgets every held modifier. */
    method Blur()
      requires Valid()
      modifies this
      ensures Valid()
      ensures pressComposeKeySet == {}
    {
      pressComposeKeySet := {};
    }
  }

  // ---------------------------------------------------------------------
  // The key sequences of the strategy tests
  // ---------------------------------------------------------------------

  /** The key names of the tests are already lowercase. */
  lemma TestKeyNames()
    ensures Lower("control") == "control" && Lower("meta") == "meta"
    ensures Lower("r") == "r" && Lower("c") == "c"
  {
  }

  /** `ctrl+r` under recordAll: control down, r down fires, r up, r down
      fires again, blur, r down alone fires nothing.  The keys may be
      reported in any case; the result lists what each keydown fired. */
  method RecordAllCtrlR(entry: HandledKeyMap, control: string, r: string) returns (fired: seq<Option<nat>>)
    requires entry.keyList == ["control", "r"]
    requires Lower(control) == "control" && Lower(r) == "r"
    ensures fired == [None, Some(0), Some(0), None]
  {
    var maps := [entry];
    var listener := new RecordAllListener();
    var f1 := listener.KeyDown(control, maps);
    assert listener.keySet == {"control"};
    IsFirstSingle(entry, e => AllMatch(e, {"control"}), f1);
    var f2 := listener.KeyDown(r, maps);
    assert listener.keySet == {"control", "r"};
    assert AllMatch(entry, {"control", "r"});
    IsFirstSingle(entry, e => AllMatch(e, {"control", "r"}), f2);
    listener.KeyUp(r);
    assert listener.keySet == {"control"};
    var f3 := listener.KeyDown(r, maps);
    assert listener.keySet == {"control", "r"};
    IsFirstSingle(entry, e => AllMatch(e, {"control", "r"}), f3);
    listener.Blur();
    var f4 := listener.KeyDown(r, maps);
    assert listener.keySet == {"r"};
    IsFirstSingle(entry, e => AllMatch(e, {"r"}), f4);
    fired := [f1, f2, f3, f4];
  }

  /** `ctrl+r` under recordCompose, the same key sequence and outcome. */
  method RecordComposeCtrlR(entry: HandledKeyMap, control: string, r: string) returns (fired: seq<Option<nat>>)
    requires entry.keyList == ["control", "r"]
    requires Lower(control) == "control" && Lower(r) == "r"
    ensures fired == [None, Some(0), Some(0), None]
  {
    var maps := [entry];
    var listener := new RecordComposeListener();
    TestKeyNames();
    ClassifyModifierKey("control", "r");
    assert ClassifyKey(entry.keyList) == Classified("r", ["control"]);
    var f1 := listener.KeyDown(control, maps);
    assert listener.pressComposeKeySet == {"control"};
    var f2 := listener.KeyDown(r, maps);
    assert ComposeMatch(entry, "r", {"control"});
    IsFirstSingle(entry, e => ComposeMatch(e, "r", {"control"}), f2);
    listener.KeyUp(r);
    var f3 := listener.KeyDown(r, maps);
    IsFirstSingle(entry, e => ComposeMatch(e, "r", {"control"}), f3);
    listener.Blur();
    var f4 := listener.KeyDown(r, maps);
    assert !ComposeMatch(entry, "r", {});
    IsFirstSingle(entry, e => ComposeMatch(e, "r", {}), f4);
    fired := [f1, f2, f3, f4];
  }

  /** `ctrl+r+c` under recordCompose: control down, r down fires nothing
      (the entry's key is c), c down fires; after releasing all three,
      control down and c down fire again without r. */
  method RecordComposeCtrlRC(entry: HandledKeyMap, control: string, r: string, c: string)
    returns (fired: seq<Option<nat>>)
    requires entry.keyList == ["control", "r", "c"]
    requires Lower(control) == "control" && Lower(r) == "r" && Lower(c) == "c"
    ensures fired == [None, None, Some(0), None, Some(0)]
  {
    var maps := [entry];
    var listener := new RecordComposeListener();
    TestKeyNames();
    ClassifyModifierKeyKey("control", "r", "c");
    assert ClassifyKey(entry.keyList) == Classified("c", ["control"]);
    var f1 := listener.KeyDown(control, maps);
    assert listener.pressComposeKeySet == {"control"};
    var f2 := listener.KeyDown(r, maps);
    assert !ComposeMatch(entry, "r", {"control"});
    IsFirstSingle(entry, e => ComposeMatch(e, "r", {"control"}), f2);
    var f3 := listener.KeyDown(c, maps);
    assert ComposeMatch(entry, "c", {"control"});
    IsFirstSingle(entry, e => ComposeMatch(e, "c", {"control"}), f3);
    listener.KeyUp(control);
    listener.KeyUp(r);
    listener.KeyUp(c);
    assert listener.pressComposeKeySet == {};
    var f4 := listener.KeyDown(control, maps);
    assert listener.pressComposeKeySet == {"control"};
    var f5 := listener.KeyDown(c, maps);
    IsFirstSingle(entry, e => ComposeMatch(e, "c", {"control"}), f5);
    fired := [f1, f2, f3, f4, f5];
  }

  /** `ctrlOrMeta+r+c` resolved on a mac, under recordAll: holding
      control, r and c fires nothing, since the entry wants meta. */
  method RecordAllControlRC(entry: HandledKeyMap, control: string, r: string, c: string)
    returns (fired: seq<Option<nat>>)
    requires entry.keyList == ["meta", "r", "c"]
    requires Lower(control) == "control" && Lower(r) == "r" && Lower(c) == "c"
    ensures fired == [None, None, None]
  {
    var maps := [entry];
    var listener := new RecordAllListener();
    var f1 := listener.KeyDown(control, maps);
    IsFirstSingle(entry, e => AllMatch(e, {"control"}), f1);
    var f2 := listener.KeyDown(r, maps);
    assert listener.keySet == {"control", "r"};
    IsFirstSingle(entry, e => AllMatch(e, {"control", "r"}), f2);
    var f3 := listener.KeyDown(c, maps);
    assert listener.keySet == {"control", "r", "c"};
    assert !AllMatch(entry, {"control", "r", "c"}) by {
      assert "meta" in entry.keyList;
    }
    IsFirstSingle(entry, e => AllMatch(e, {"control", "r", "c"}), f3);
    fired := [f1, f2, f3];
  }

  /** The same entry under recordAll: holding meta, r and c fires it on
      c. */
  method RecordAllMetaRC(entry: HandledKeyMap, meta: string, r: string, c: string)
    returns (fired: seq<Option<nat>>)
    requires entry.keyList == ["meta", "r", "c"]
    requires Lower(meta) == "meta" && Lower(r) == "r" && Lower(c) == "c"
    ensures fired == [None, None, Some(0)]
  {
    var maps := [entry];
    var listener := new RecordAllListener();
    var f1 := listener.KeyDown(meta, maps);
    IsFirstSingle(entry, e => AllMatch(e, {"meta"}), f1);
    var f2 := listener.KeyDown(r, maps);
    assert listener.keySet == {"meta", "r"};
    IsFirstSingle(entry, e => AllMatch(e, {"meta", "r"}), f2);
    var f3 := listener.KeyDown(c, maps);
    assert listener.keySet == {"meta", "r", "c"};
    assert AllMatch(entry, {"meta", "r", "c"});
    IsFirstSingle(entry, e => AllMatch(e, {"meta", "r", "c"}), f3);
    fired := [f1, f2, f3];
  }
}

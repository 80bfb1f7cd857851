# keymap: a verified model

keymap is a small browser library for keyboard shortcuts. A caller registers
bindings as strings such as `Control+a`, `ctrl+r+c` or `ControlOrMeta+s`, each
with a handler. A `Keymap` object keeps the normalized bindings.

- It can be asked whether it `has` a combination.
- It can `trigger` one by name.
- Bindings can be `add`ed and `remove`d one at a time, or all `clear`ed.

Two keyboard-tracking strategies remember which keys are held between DOM
events:
- `recordAll` remembers every key.
- `recordCompose` remembers only the modifiers alt, shift, control and meta.

On each keydown, a strategy fires the first binding that matches.

Normalization (`handleKeys`) works in four steps:
1. It lowercases the string.
2. It turns each separating `+` into a space; a `+` right after a separator is the `+` key itself.
3. It splits on spaces.
4. It resolves every token through the alias lists:
   - `command` and `cmd` become `meta`;
   - `ctrl` becomes `control`;
   - the "X or Y" names (`controlormeta`, `cmdorctrl`, ...) become `meta` on a Mac and `control` elsewhere.

A Mac is detected by `mac` or `darwin` appearing, in any case, in the user agent.

The model has four modules:

- `Types` (`types.dfy`): the entities and the first-match search.
  - The entities are an unprocessed binding, a normalized entry, its handler-free snapshot, and the strategy name.
  - The search is `find`/`findIndex`.
  - This module also holds small set/sequence facts.
- `Utils` (`utils.dfy`): `isMac`, the alias lists, `handleKeys`, `castArray`.
- `Strategy` (`strategy.dfy`): the two strategies.
  - Each is a class whose field is the held-key set.
  - Its methods are the three event handlers (keydown, keyup, blur).
  - The tests' key sequences are written as methods that drive fresh listeners.
- `Registry` (`registry.dfy`): the `Keymap` class over the sequence of normalized entries, with the tests of the registry.

Handlers are opaque identifiers: the model reports *which* entry would fire, as an
`Option` index into the entry list, and never calls anything. The user agent is
a parameter of every operation that reads the platform.

Three points where the model follows the code, which the unit tests expect otherwise:
- `add` returns `!exist`, a boolean (src/Keymap.ts:58-62).
- There is no `destroy`. The strategy tests call it (__tests__/strategy.test.ts:47-48), but the class has no such method (src/Keymap.ts:5-72).
- The constructor takes `(maps, el, strategy)` and only normalizes the bindings (src/Keymap.ts:8-15). The tests instead pass a configuration object first (__tests__/strategy.test.ts:27). The constructor attaches no listeners.

## Model

| member | source | states |
|---|---|---|
| Types.FirstIndex | src/Keymap.ts:30-34 | the result is the index of the first element passing the test, or None when none does; Some exactly when some element passes |
| Types.IsFirstUnique | src/Keymap.ts:45-53 | the first-match result is determined by the list and the test |
| Types.ElementsCard | src/strategy.ts:15-16 | a token list has at most as many distinct elements as tokens, and exactly as many when none repeats |
| Types.SubsetCard | src/strategy.ts:15-16 | a subset is no larger than its superset, and equals it when the sizes agree |
| Types.CoveredBothWays | src/Keymap.ts:32-33 | with no repeats and no more tokens on the other side, containment one way gives containment the other way |
| Utils.Lower | src/utils.ts:20 | lowercasing keeps the length and maps every character through ASCII lowercasing |
| Utils.LowerIdempotent | src/utils.ts:20 | lowercasing twice is lowercasing once |
| Utils.ContainsIff | src/utils.ts:3 | the left-to-right substring scan succeeds exactly when the pattern occurs at some position |
| Utils.IsMac | src/utils.ts:2-4 | a user agent is a Mac exactly when its lowercase form contains `mac` or `darwin` |
| Utils.IsMacInfix | src/utils.ts:3 | any user agent with `mac` or `darwin`, in any case, anywhere, is a Mac |
| Utils.IsMacExamples | __tests__/utils.test.ts:11-13 | `1111` and the empty agent are not Macs; `mac` and `Darwin` are |
| Utils.IsMacDarwinAgent | __tests__/utils.test.ts:15-16 | the jsdom user agent containing `(darwin)` is a Mac |
| Utils.IsMacMacintoshAgent | __tests__/utils.test.ts:18-20 | the desktop Chrome user agent containing `Macintosh` is a Mac |
| Utils.MetaOrControlRow | src/utils.ts:8-14 | for meta alias m and control alias c, positions 4m+2c and 4m+2c+1 of the "or" list hold `m or c` and `c or m` |
| Utils.MetaOrControlListOrder | src/utils.ts:6-14 | the "or" list has two names per (meta, control) pair of the lowercased alias lists, in the order the nested loops push them |
| Utils.PlatformModifier | src/utils.ts:21 | the "or" names stand for `meta` or for `control` |
| Utils.ReplaceCases | src/utils.ts:23-28 | "or" names resolve to `meta` on a Mac and `control` elsewhere; meta aliases to `meta`; control aliases to `control`; every other token to itself |
| Utils.ReplaceFixedPoint | src/utils.ts:23-28 | a resolved token resolves to itself |
| Utils.MarkSeparatorsShape | src/utils.ts:30 | the separator rewrite keeps the length and every non-`+` character; each `+` becomes a space or stays a `+`, and it stays exactly when the character before it is a `+` that became a space |
| Utils.SplitSpaceJoinBack | src/utils.ts:31 | no split piece contains a space, and joining the pieces with single spaces gives back the string |
| Utils.SplitSpaceJoin | src/utils.ts:31 | splitting space-free pieces joined by spaces gives back those pieces |
| Utils.HandleKeys | src/utils.ts:19-35 | the first component is the lowercased string; the token list is never empty |
| Utils.LowerJoin | src/utils.ts:20 | lowercasing a `+`-joined string lowercases each key |
| Utils.MarkSeparatorsJoined | src/utils.ts:30 | plain keys joined by single `+`s come out joined by single spaces |
| Utils.HandleKeysJoined | src/utils.ts:19-35 | plain keys joined by `+` give one token per key, in order, each lowercased and resolved |
| Utils.HandleKeysTwo | src/utils.ts:19-35 | `a+b` gives the resolved tokens of `a` and of `b` |
| Utils.HandleKeysSingle | src/utils.ts:19-35 | a string with no `+` and no space gives its one resolved token |
| Utils.HandleKeysLiteralPlus | src/utils.ts:30 | `a+b++` gives the tokens of `a+b` followed by the `+` key |
| Utils.HandleKeysIdempotent | src/utils.ts:19-35 | normalizing the canonical string again gives the same result, and every token is already resolved |
| Utils.ResolveControlExamples | __tests__/utils.test.ts:24-25 | `control` and `ctrl` resolve to `control` on every platform |
| Utils.ResolveMetaExamples | __tests__/utils.test.ts:28-30 | `meta`, `command` and `cmd` resolve to `meta` on every platform |
| Utils.ResolveLetterExamples | __tests__/utils.test.ts:24-34 | `a`, `b` and `+` resolve to themselves |
| Utils.ResolveMacExamples | __tests__/utils.test.ts:26-27 | on a Mac, `controlormeta` and `commandorcontrol` resolve to `meta` |
| Utils.ResolveOffMacExamples | __tests__/utils.test.ts:32-33 | elsewhere, the same names resolve to `control` |
| Utils.HandleKeysMetaCombination | __tests__/utils.test.ts:26-30 | a meta spelling, or an "or" name on a Mac, followed by `+key`, gives `meta` and the key, whatever the case of the letters |
| Utils.HandleKeysControlCombination | __tests__/utils.test.ts:24-33 | a control spelling, or an "or" name off a Mac, followed by `+key`, gives `control` and the key |
| Utils.HandleKeysOrNamePlusOffMac | __tests__/utils.test.ts:34 | `ControlOrMeta++` off a Mac gives `control` and `+` |
| Utils.HandleKeysSpace | src/utils.ts:29-32 | a lone space gives two empty tokens |
| Utils.CastArray | src/utils.ts:44-46 | an array is returned as it is; a single value becomes a one-element array |
| Strategy.AllMatchExact | src/strategy.ts:14-18 | an entry with no repeated tokens matches under recordAll exactly when the held set is its token set |
| Strategy.RecordAllListener.constructor | src/strategy.ts:7 | a new listener holds no keys |
| Strategy.RecordAllListener.KeyDown | src/strategy.ts:9-23 | the lowercased key joins the held set; the fired entry is the first whose tokens number as many as the held keys and are all held |
| Strategy.RecordAllListener.KeyUp | src/strategy.ts:25-31 | releasing `meta` empties the held set; releasing any other key removes just that key |
| Strategy.RecordAllListener.Blur | src/strategy.ts:33-35 | losing focus empties the held set |
| Strategy.ModifiersAreComposeKeys | src/strategy.ts:55-64 | every collected modifier is one of alt, shift, control, meta |
| Strategy.ClassifyFromModifiers | src/strategy.ts:70-80 | the fold appends the list's lowercased modifiers, in order, to those already collected |
| Strategy.ClassifyFromAllModifiers | src/strategy.ts:70-80 | over modifiers only, the fold keeps the key it started with |
| Strategy.ClassifyFromLastPlain | src/strategy.ts:70-80 | the fold ends with the lowercased last non-modifier token as key |
| Strategy.ClassifyKeySpec | src/strategy.ts:69-81 | classifyKey returns the modifiers in order, all of them compose keys; the key is the last plain token, lowercased, or `''` when there is none |
| Strategy.ClassifyModifierKey | src/strategy.ts:69-81 | a modifier then a plain key classifies as that key with that modifier |
| Strategy.ClassifyModifierKeyKey | src/strategy.ts:69-81 | a modifier then two plain keys classifies as the second key: the first is overwritten |
| Strategy.ComposeMatchExact | src/strategy.ts:97-108 | with no repeated modifiers, an entry matches under recordCompose exactly when the pressed key is its classified key and the held set is its modifier set |
| Strategy.RecordComposeListener.constructor | src/strategy.ts:87 | a new listener holds no modifiers |
| Strategy.RecordComposeListener.KeyDown | src/strategy.ts:89-113 | a modifier joins the held set and fires nothing; any other key leaves the set and fires the first entry whose classified key is that key and whose modifiers are exactly the held ones; only modifiers are ever held |
| Strategy.RecordComposeListener.KeyUp | src/strategy.ts:115-120 | a released modifier leaves the held set; other releases change nothing |
| Strategy.RecordComposeListener.Blur | src/strategy.ts:122 | losing focus empties the held set |
| Strategy.RecordAllCtrlR | __tests__/strategy.test.ts:29-43 | under recordAll, control, r, release r, r, blur, r fires the `ctrl+r` entry on the second and third keydowns only |
| Strategy.RecordComposeCtrlR | __tests__/strategy.test.ts:29-43 | under recordCompose, the same sequence gives the same outcome |
| Strategy.RecordComposeCtrlRC | __tests__/strategy.test.ts:81-96 | under recordCompose, `ctrl+r+c` fires on control-r-c at c and not at r, and again on control-c after all three keys are released |
| Strategy.RecordAllControlRC | __tests__/strategy.test.ts:56-63 | under recordAll, `ctrlOrMeta+r+c` resolved on a Mac does not fire on control, r, c |
| Strategy.RecordAllMetaRC | __tests__/strategy.test.ts:66-71 | the same entry fires on meta, r, c at c |
| Registry.HandleMap | src/Keymap.ts:18-21 | the normalized entry keeps the raw string, handler and description, and holds the canonical string and tokens from handleKeys |
| Registry.HandleMaps | src/Keymap.ts:17-22 | one normalized entry per binding, in order |
| Registry.HandleKeysOfLower | src/utils.ts:20 | two strings with the same lowercase form normalize alike |
| Registry.FindRuleNormalized | src/Keymap.ts:45-53 | on a normalized entry, findIndex's raw and canonical tests add nothing to "every query token is among the entry's tokens, with equal counts" |
| Registry.TriggerRuleNormalized | src/Keymap.ts:30-34 | on a normalized entry, trigger's canonical test adds nothing to "every entry token is among the query's tokens, with equal counts" |
| Registry.TriggerRuleFindRule | src/Keymap.ts:30-53 | an entry with no repeated tokens that trigger fires is one findIndex finds |
| Registry.FindRuleNotTriggerRule | src/Keymap.ts:30-53 | the converse fails: for the entry `a+b` the query `a+a` is found but fires nothing |
| Registry.Keymap.constructor | src/Keymap.ts:8-15 | the entries are the normalized bindings, in order; the strategy is recorded |
| Registry.Keymap.FindIndex | src/Keymap.ts:43-54 | -1 exactly when no entry matches by raw string, canonical string or contained tokens; otherwise the first entry that does |
| Registry.Keymap.Has | src/Keymap.ts:55-57 | true exactly when some entry matches by findIndex's rule |
| Registry.Keymap.Trigger | src/Keymap.ts:27-39 | the fired entry is the first that matches by canonical string or by tokens contained in the query's; None when none does |
| Registry.Keymap.Maps | src/Keymap.ts:40-42 | one snapshot per entry, in order, with every field but the handler |
| Registry.Keymap.Add | src/Keymap.ts:58-62 | adds exactly when the registry did not have the binding; the normalized binding is appended, or nothing changes; the registry has it afterwards; normalization is preserved |
| Registry.Keymap.Remove | src/Keymap.ts:63-67 | the entry findIndex reports is cut out and the others keep their order; nothing changes when none matches |
| Registry.Keymap.Clear | src/Keymap.ts:68-71 | the entry list is empty, so nothing is found and nothing fires |
| Registry.TriggerImpliesHas | src/Keymap.ts:27-57 | in a normalized registry with no repeated tokens, every string that fires a binding is one it has |
| Registry.SameResolutionMatches | __tests__/index.test.ts:33-35 | the binding `x+k` is found and fired by `y+k` whenever `y` resolves like `x` |
| Registry.OtherKeyMisses | __tests__/index.test.ts:36 | `x+k` is not found by `y+l` when `l` resolves to neither of its tokens |
| Registry.OtherKeyDoesNotTrigger | __tests__/index.test.ts:46-47 | `x+k` is not fired by `y+l` when `k` resolves to neither of the query's tokens |
| Registry.HasLowercaseSpelling | __tests__/index.test.ts:34 | `Control+a` is found as `control+a` |
| Registry.HasCtrlSpelling | __tests__/index.test.ts:35 | `Control+a` is found as `ctrl+a` |
| Registry.HasMissesOtherKey | __tests__/index.test.ts:36 | `Control+a` is not found as `ctrl+b` |
| Registry.HasScenario | __tests__/index.test.ts:30-37 | a registry of `Control+a` has it as written, lowercased and as `ctrl+a`, and does not have `ctrl+b` |
| Registry.TriggerAddedBinding | __tests__/index.test.ts:46-47 | `Control+b` does not fire `Control+a` but fires `ctrl+b` |
| Registry.TriggerClearScenario | __tests__/index.test.ts:4-29 | `Control+a` fires the binding three times, and after `clear` fires nothing |
| Registry.AddScenario | __tests__/index.test.ts:38-48 | `ctrl+b` is added next to `Control+a`; the registry then has it, and `Control+b` fires it as the second entry |

## Left out

- Event listener wiring is not modelled: `addEventListener`, `removeEventListener` and the unsubscribe function each strategy returns. An event is a method call on the listener.
- Each event gets the entry list from the caller at the moment the event happens. Sharing one mutable array between the registry and its listeners is not modelled.
- `cancel` is not modelled, and neither is its call from `clear`. Both only hand the target element and the entry list to the strategy, which attaches listeners.
- The `el` target element is not modelled, and neither is its default `window`.
- Registry.Keymap.constructor: it takes the strategy as a required argument. The source's default `'recordCompose'` (src/Keymap.ts:11) is not modelled. Only the left-out `cancel` reads the strategy.
- `console.log` calls are DOM and console I/O and are not modelled.
- Handler calls are not modelled: handlers are opaque identifiers. The model reports which entry fires; it never calls it or passes it the event.
- `maps` is modelled as a field-by-field copy. The JSON round trip it uses is not modelled.
- The global `navigator.userAgent` is a parameter. `Keymap` operations take the same value on each call, so the stored entries are normalized under that value. An agent that changes between calls is not modelled.
- Lowercasing covers ASCII letters only. Full Unicode case mapping is not modelled.
- The regular expression `mac|darwin` is modelled as a substring scan. The `/\+(\+)?/g` rewrite is modelled as a left-to-right scan.
- Utils.HandleKeys: its contract states only the canonical string and that the token list is non-empty. The tokens themselves are stated over symbolic key names by HandleKeysJoined, HandleKeysTwo, HandleKeysSingle and HandleKeysLiteralPlus. For every input they follow from MarkSeparatorsShape and SplitSpaceJoinBack.
- The unit tests of `handleKeys` are stated for any spelling with the given lowercase form, not for the literal strings.
- Some test expectations are not modelled, because the code does not implement them:
  - `Mod` as meta: the code leaves `mod` unchanged.
  - `Option`, `ESC`, `return`, `plus` and `space`.
  - `␣` and `⏎`.
  - A lone space as one space token: the code gives two empty tokens, as HandleKeysSpace states.
  - `destroy`.
  - The configuration-object constructor.
- scripts/set-repo.ts is a repository-maintenance script and is not part of this model.

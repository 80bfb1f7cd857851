/** Platform detection and key-string normalization (src/utils.ts).

    `HandleKeys` lowercases a combination string, rewrites its `+`
    separators to spaces (a `+` right after a separating `+` is a key of
    its own), splits on spaces and resolves every token through the alias
    lists.  The platform is read through the user-agent string, which is a
    parameter here. */
module Utils {

  // ---------------------------------------------------------------------
  // ASCII lowercasing (String.prototype.toLowerCase restricted to A-Z)
  // ---------------------------------------------------------------------

  function LowerChar(c: char): char {
    if 'A' <= c <= 'Z' then (c as int - 'A' as int + 'a' as int) as char else c
  }

  function Lower(s: string): (r: string)
    ensures |r| == |s|
    ensures forall i :: 0 <= i < |s| ==> r[i] == LowerChar(s[i])
    decreases |s|
  {
    if s == [] then [] else [LowerChar(s[0])] + Lower(s[1..])
  }

  lemma LowerIdempotent(s: string)
    ensures Lower(Lower(s)) == Lower(s)
  {
  }

  /** Lowercasing every token of a list. */
  function LowerAll(ts: seq<string>): (r: seq<string>)
    ensures |r| == |ts|
  {
    seq(|ts|, i requires 0 <= i < |ts| => Lower(ts[i]))
  }

  // ---------------------------------------------------------------------
  // Platform detection
  // ---------------------------------------------------------------------

  /** `pat` occurs in `s` starting at position `i`. */
  predicate OccursAt(s: string, pat: string, i: nat) {
    i + |pat| <= |s| && s[i..i + |pat|] == pat
  }

  /** `pat` occurs somewhere in `s`. */
  ghost predicate Occurs(s: string, pat: string) {
    exists i: nat :: OccursAt(s, pat, i)
  }

  /** Substring search, scanning `s` from the left. */
  predicate Contains(s: string, pat: string)
    decreases |s|
  {
    if |s| < |pat| then false
    else s[..|pat|] == pat || Contains(s[1..], pat)
  }

  /** A window of the tail is the window one position further on. */
  lemma TailWindow(s: string, i: nat, n: nat)
    requires 1 + i + n <= |s|
    ensures s[1..][i..i + n] == s[i + 1..i + 1 + n]
  {
    var a := s[1..][i..i + n];
    var b := s[i + 1..i + 1 + n];
    forall k | 0 <= k < n ensures a[k] == b[k] {
      assert s[1..][i + k] == s[i + 1 + k];
    }
  }

  lemma {:induction false} ContainsIff(s: string, pat: string)
    ensures Contains(s, pat) <==> Occurs(s, pat)
    decreases |s|
  {
    if |s| >= |pat| {
      if s[..|pat|] == pat {
        assert OccursAt(s, pat, 0);
      } else {
        ContainsIff(s[1..], pat);
        forall i: nat | OccursAt(s, pat, i) && i > 0
          ensures OccursAt(s[1..], pat, i - 1)
        {
          TailWindow(s, i - 1, |pat|);
        }
        forall i: nat | OccursAt(s[1..], pat, i)
          ensures OccursAt(s, pat, i + 1)
        {
          TailWindow(s, i, |pat|);
        }
      }
    }
  }

  /** `isMac`: the case-insensitive regular expression `mac|darwin` tested
      against the user agent. */
  function IsMac(userAgent: string): (r: bool)
    ensures r <==> Occurs(Lower(userAgent), "mac") || Occurs(Lower(userAgent), "darwin")
  {
    var lowered := Lower(userAgent);
    ContainsIff(lowered, "mac");
    ContainsIff(lowered, "darwin");
    Contains(lowered, "mac") || Contains(lowered, "darwin")
  }

  // ---------------------------------------------------------------------
  // Alias lists
  // ---------------------------------------------------------------------

  /** `['Meta', 'Command', 'CMD']`, lowercased. */
  const MetaAlias: seq<string> := ["meta", "command", "cmd"]

  /** `['Control', 'Ctrl']`, lowercased. */
  const CtrlAlias: seq<string> := ["control", "ctrl"]

  /** For every meta alias, for every control alias: `meta + 'or' + ctrl`
      followed by `ctrl + 'or' + meta`. */
  const MetaOrControlList: seq<string> := [
    "metaorcontrol", "controlormeta", "metaorctrl", "ctrlormeta",
    "commandorcontrol", "controlorcommand", "commandorctrl", "ctrlorcommand",
    "cmdorcontrol", "controlorcmd", "cmdorctrl", "ctrlorcmd"
  ]

  /** The four names the inner loop pushes for the meta alias `m`. */
  lemma MetaOrControlRow(m: nat, c: nat)
    requires m < |MetaAlias| && c < |CtrlAlias|
    ensures MetaOrControlList[4 * m + 2 * c] == MetaAlias[m] + "or" + CtrlAlias[c]
    ensures MetaOrControlList[4 * m + 2 * c + 1] == CtrlAlias[c] + "or" + MetaAlias[m]
  {
    if m == 0 {
      if c == 0 {
        assert MetaAlias[0] + "or" + CtrlAlias[0] == "metaorcontrol";
        assert CtrlAlias[0] + "or" + MetaAlias[0] == "controlormeta";
      } else {
        assert MetaAlias[0] + "or" + CtrlAlias[1] == "metaorctrl";
        assert CtrlAlias[1] + "or" + MetaAlias[0] == "ctrlormeta";
      }
    } else if m == 1 {
      if c == 0 {
        assert MetaAlias[1] + "or" + CtrlAlias[0] == "commandorcontrol";
        assert CtrlAlias[0] + "or" + MetaAlias[1] == "controlorcommand";
      } else {
        assert MetaAlias[1] + "or" + CtrlAlias[1] == "commandorctrl";
        assert CtrlAlias[1] + "or" + MetaAlias[1] == "ctrlorcommand";
      }
    } else {
      if c == 0 {
        assert MetaAlias[2] + "or" + CtrlAlias[0] == "cmdorcontrol";
        assert CtrlAlias[0] + "or" + MetaAlias[2] == "controlorcmd";
      } else {
        assert MetaAlias[2] + "or" + CtrlAlias[1] == "cmdorctrl";
        assert CtrlAlias[1] + "or" + MetaAlias[2] == "ctrlorcmd";
      }
    }
  }

  /** The literal list is exactly what the nested loops over the two
      alias lists push, in the same order. */
  lemma MetaOrControlListOrder()
    ensures |MetaOrControlList| == 2 * |MetaAlias| * |CtrlAlias|
    ensures forall m, c :: 0 <= m < |MetaAlias| && 0 <= c < |CtrlAlias| ==>
      MetaOrControlList[4 * m + 2 * c] == MetaAlias[m] + "or" + CtrlAlias[c] &&
      MetaOrControlList[4 * m + 2 * c + 1] == CtrlAlias[c] + "or" + MetaAlias[m]
  {
    forall m, c | 0 <= m < |MetaAlias| && 0 <= c < |CtrlAlias|
      ensures MetaOrControlList[4 * m + 2 * c] == MetaAlias[m] + "or" + CtrlAlias[c]
      ensures MetaOrControlList[4 * m + 2 * c + 1] == CtrlAlias[c] + "or" + MetaAlias[m]
    {
      MetaOrControlRow(m, c);
    }
  }

  /** What an "X or Y" modifier name stands for on this platform. */
  function PlatformModifier(userAgent: string): (moc: string)
    ensures moc == "meta" || moc == "control"
  {
    if IsMac(userAgent) then "meta" else "control"
  }

  /** The inner `replace` of `handleKeys`: resolution of one token. */
  function Replace(key: string, moc: string): string {
    if key in MetaOrControlList then moc
    else if key in MetaAlias then "meta"
    else if key in CtrlAlias then "control"
    else key
  }

  /** Resolution, alias by alias: the "or" names follow the platform, the
      meta and control spellings collapse, everything else is kept. */
  lemma ReplaceCases(key: string, userAgent: string)
    ensures key in MetaOrControlList ==>
      Replace(key, PlatformModifier(userAgent)) == (if IsMac(userAgent) then "meta" else "control")
    ensures key in MetaAlias ==> Replace(key, PlatformModifier(userAgent)) == "meta"
    ensures key in CtrlAlias ==> Replace(key, PlatformModifier(userAgent)) == "control"
    ensures key !in MetaOrControlList && key !in MetaAlias && key !in CtrlAlias ==>
      Replace(key, PlatformModifier(userAgent)) == key
  {
  }

  /** Resolved tokens resolve to themselves. */
  lemma ReplaceFixedPoint(key: string, userAgent: string)
    ensures var moc := PlatformModifier(userAgent);
            Replace(Replace(key, moc), moc) == Replace(key, moc)
  {
  }

  // ---------------------------------------------------------------------
  // Tokenizing
  // ---------------------------------------------------------------------

  /** The rewrite `replace(/\+(\+)?/g, ' $1')`: scanning from the left,
      every `+` becomes a space, and a `+` directly after it is kept as
      a key. */
  function MarkSeparators(s: string): string
    decreases |s|
  {
    if s == [] then []
    else if s[0] == '+' then
      if |s| > 1 && s[1] == '+' then " +" + MarkSeparators(s[2..])
      else " " + MarkSeparators(s[1..])
    else [s[0]] + MarkSeparators(s[1..])
  }

  /** The rewrite keeps the length and every character other than `+`;
      a `+` becomes a space or stays a `+`, and it stays a `+` exactly
      when it directly follows a `+` that became a space. */
  lemma {:induction false} MarkSeparatorsShape(s: string)
    ensures |MarkSeparators(s)| == |s|
    ensures forall i :: 0 <= i < |s| && s[i] != '+' ==> MarkSeparators(s)[i] == s[i]
    ensures forall i :: 0 <= i < |s| && s[i] == '+' ==>
      MarkSeparators(s)[i] == ' ' || MarkSeparators(s)[i] == '+'
    ensures forall i :: 0 <= i < |s| && s[i] == '+' ==>
      (MarkSeparators(s)[i] == '+' <==> 0 < i && s[i - 1] == '+' && MarkSeparators(s)[i - 1] == ' ')
    decreases |s|
  {
    if s != [] {
      var r := MarkSeparators(s);
      if s[0] == '+' && |s| > 1 && s[1] == '+' {
        var t := s[2..];
        MarkSeparatorsShape(t);
        assert r == " +" + MarkSeparators(t);
        forall i | 2 <= i < |s| ensures r[i] == MarkSeparators(t)[i - 2] && s[i] == t[i - 2] {
        }
      } else {
        var t := s[1..];
        MarkSeparatorsShape(t);
        assert r == [if s[0] == '+' then ' ' else s[0]] + MarkSeparators(t);
        forall i | 1 <= i < |s| ensures r[i] == MarkSeparators(t)[i - 1] && s[i] == t[i - 1] {
        }
      }
    }
  }

  /** The tokens joined back with one separator character between them. */
  function Join(ts: seq<string>, sep: char): string
    decreases |ts|
  {
    if |ts| == 0 then ""
    else if |ts| == 1 then ts[0]
    else ts[0] + [sep] + Join(ts[1..], sep)
  }

  /** `split(' ')` with the piece read so far in `cur`. */
  function SplitFrom(s: string, cur: string): (r: seq<string>)
    ensures |r| >= 1
    decreases |s|
  {
    if s == [] then [cur]
    else if s[0] == ' ' then [cur] + SplitFrom(s[1..], "")
    else SplitFrom(s[1..], cur + [s[0]])
  }

  /** `split(' ')`, which always yields at least one piece. */
  function SplitSpace(s: string): (r: seq<string>)
    ensures |r| >= 1
  {
    SplitFrom(s, "")
  }

  /** No piece of a split holds a space, and the pieces joined with
      spaces give the input back. */
  lemma {:induction false} SplitFromJoinBack(s: string, cur: string)
    requires ' ' !in cur
    ensures forall i :: 0 <= i < |SplitFrom(s, cur)| ==> ' ' !in SplitFrom(s, cur)[i]
    ensures Join(SplitFrom(s, cur), ' ') == cur + s
    decreases |s|
  {
    if s == [] {
      assert cur + s == cur;
    } else if s[0] == ' ' {
      var rest := SplitFrom(s[1..], "");
      SplitFromJoinBack(s[1..], "");
      assert ([cur] + rest)[1..] == rest;
      assert cur + s == cur + [' '] + ("" + s[1..]);
    } else {
      SplitFromJoinBack(s[1..], cur + [s[0]]);
      assert (cur + [s[0]]) + s[1..] == cur + s;
    }
  }

  lemma SplitSpaceJoinBack(s: string)
    ensures forall i :: 0 <= i < |SplitSpace(s)| ==> ' ' !in SplitSpace(s)[i]
    ensures Join(SplitSpace(s), ' ') == s
  {
    SplitFromJoinBack(s, "");
    assert "" + s == s;
  }

  /** `handleKeys`: the lowercased string and its resolved tokens. */
  function HandleKeys(keys: string, userAgent: string): (r: (string, seq<string>))
    ensures r.0 == Lower(keys)
    ensures |r.1| >= 1
  {
    var lowered := Lower(keys);
    var moc := PlatformModifier(userAgent);
    var tokens := SplitSpace(MarkSeparators(lowered));
    (lowered, seq(|tokens|, i requires 0 <= i < |tokens| => Replace(tokens[i], moc)))
  }

  // ---------------------------------------------------------------------
  // Properties of the tokenizer
  // ---------------------------------------------------------------------

  /** A key name that can stand between two separators. */
  predicate PlainToken(t: string) {
    |t| > 0 && '+' !in t && ' ' !in t
  }

  lemma {:induction false} LowerConcat(a: string, b: string)
    ensures Lower(a + b) == Lower(a) + Lower(b)
  {
    var l, la, lb := Lower(a + b), Lower(a), Lower(b);
    forall i | 0 <= i < |a + b|
      ensures l[i] == (la + lb)[i]
    {
      if i < |a| { assert (a + b)[i] == a[i]; } else { assert (a + b)[i] == b[i - |a|]; }
    }
    assert l == la + lb;
  }

  lemma {:induction false} LowerJoin(ts: seq<string>, sep: char)
    requires LowerChar(sep) == sep
    ensures Lower(Join(ts, sep)) == Join(LowerAll(ts), sep)
    decreases |ts|
  {
    if |ts| > 1 {
      LowerJoin(ts[1..], sep);
      LowerConcat(ts[0] + [sep], Join(ts[1..], sep));
      LowerConcat(ts[0], [sep]);
      assert LowerAll(ts)[1..] == LowerAll(ts[1..]);
    }
  }

  lemma LowerPlain(t: string)
    requires PlainToken(t)
    ensures PlainToken(Lower(t))
  {
    forall i | 0 <= i < |t| ensures Lower(t)[i] != '+' && Lower(t)[i] != ' ' {
      assert t[i] != '+' && t[i] != ' ';
    }
  }

  lemma {:induction false} MarkSeparatorsPlain(t: string, rest: string)
    requires '+' !in t
    ensures MarkSeparators(t + rest) == t + MarkSeparators(rest)
    decreases |t|
  {
    if t == [] {
      assert t + rest == rest;
    } else {
      assert (t + rest)[0] == t[0];
      assert (t + rest)[1..] == t[1..] + rest;
      MarkSeparatorsPlain(t[1..], rest);
    }
  }

  /** Plain tokens joined with single `+` are separated by single spaces. */
  lemma {:induction false} MarkSeparatorsJoined(ts: seq<string>, rest: string)
    requires |ts| >= 1
    requires forall i :: 0 <= i < |ts| ==> PlainToken(ts[i])
    ensures MarkSeparators(Join(ts, '+') + rest) == Join(ts, ' ') + MarkSeparators(rest)
    decreases |ts|
  {
    assert PlainToken(ts[0]);
    if |ts| == 1 {
      MarkSeparatorsPlain(ts[0], rest);
    } else {
      var x := Join(ts[1..], '+') + rest;
      assert Join(ts, '+') + rest == ts[0] + ("+" + x);
      MarkSeparatorsPlain(ts[0], "+" + x);
      assert PlainToken(ts[1]);
      assert x[0] == ts[1][0];
      assert ("+" + x)[1..] == x;
      MarkSeparatorsJoined(ts[1..], rest);
    }
  }

  /** A space-free run is added to the piece being read. */
  lemma {:induction false} SplitFromPlain(t: string, rest: string, cur: string)
    requires ' ' !in t
    ensures SplitFrom(t + rest, cur) == SplitFrom(rest, cur + t)
    decreases |t|
  {
    if t == [] {
      assert t + rest == rest;
      assert cur + t == cur;
    } else {
      assert (t + rest)[0] == t[0];
      assert (t + rest)[1..] == t[1..] + rest;
      SplitFromPlain(t[1..], rest, cur + [t[0]]);
      assert cur + [t[0]] + t[1..] == cur + t;
    }
  }

  /** Splitting undoes joining with spaces. */
  lemma {:induction false} SplitFromJoin(ts: seq<string>, cur: string)
    requires |ts| >= 1
    requires forall i :: 0 <= i < |ts| ==> ' ' !in ts[i]
    ensures SplitFrom(Join(ts, ' '), cur) == [cur + ts[0]] + ts[1..]
    decreases |ts|
  {
    if |ts| == 1 {
      SplitFromPlain(ts[0], "", cur);
      assert ts[0] + "" == ts[0];
    } else {
      var tail := Join(ts[1..], ' ');
      assert Join(ts, ' ') == ts[0] + (" " + tail);
      SplitFromPlain(ts[0], " " + tail, cur);
      assert (" " + tail)[1..] == tail;
      SplitFromJoin(ts[1..], "");
      assert "" + ts[1] == ts[1];
      assert [ts[1]] + ts[2..] == ts[1..];
    }
  }

  lemma SplitSpaceJoin(ts: seq<string>)
    requires |ts| >= 1
    requires forall i :: 0 <= i < |ts| ==> ' ' !in ts[i]
    ensures SplitSpace(Join(ts, ' ')) == ts
  {
    SplitFromJoin(ts, "");
    assert "" + ts[0] == ts[0];
    assert [ts[0]] + ts[1..] == ts;
  }

  lemma {:induction false} JoinAppend(ts: seq<string>, x: string, sep: char)
    requires |ts| >= 1
    ensures Join(ts + [x], sep) == Join(ts, sep) + [sep] + x
    decreases |ts|
  {
    if |ts| > 1 {
      assert (ts + [x])[1..] == ts[1..] + [x];
      JoinAppend(ts[1..], x, sep);
    }
  }

  /** How the resolved tokens follow from the split pieces. */
  lemma TokensOfPieces(keys: string, userAgent: string, pieces: seq<string>)
    requires SplitSpace(MarkSeparators(Lower(keys))) == pieces
    ensures |HandleKeys(keys, userAgent).1| == |pieces|
    ensures forall i :: 0 <= i < |pieces| ==>
      HandleKeys(keys, userAgent).1[i] == Replace(pieces[i], PlatformModifier(userAgent))
  {
  }

  /** Plain tokens joined with `+` come back lowercased and resolved, one
      token per key, in the order written. */
  lemma HandleKeysJoined(ts: seq<string>, userAgent: string)
    requires |ts| >= 1
    requires forall i :: 0 <= i < |ts| ==> PlainToken(ts[i])
    ensures |HandleKeys(Join(ts, '+'), userAgent).1| == |ts|
    ensures forall i :: 0 <= i < |ts| ==>
      HandleKeys(Join(ts, '+'), userAgent).1[i] == Replace(Lower(ts[i]), PlatformModifier(userAgent))
  {
    var lts := LowerAll(ts);
    forall i | 0 <= i < |ts| ensures PlainToken(lts[i]) { LowerPlain(ts[i]); }
    LowerJoin(ts, '+');
    MarkSeparatorsJoined(lts, "");
    assert Join(lts, '+') + "" == Join(lts, '+');
    assert Join(lts, ' ') + "" == Join(lts, ' ');
    SplitSpaceJoin(lts);
    TokensOfPieces(Join(ts, '+'), userAgent, lts);
  }

  lemma LowerLiteralPlus(ts: seq<string>)
    ensures Lower(Join(ts, '+') + "++") == Join(LowerAll(ts), '+') + "++"
  {
    LowerJoin(ts, '+');
    LowerConcat(Join(ts, '+'), "++");
    assert Lower("++") == "++";
  }

  lemma MarkSeparatorsDoublePlus()
    ensures MarkSeparators("++") == " +"
  {
  }

  lemma MarkSeparatorsJoinedDoublePlus(lts: seq<string>)
    requires |lts| >= 1
    requires forall i :: 0 <= i < |lts| ==> PlainToken(lts[i])
    ensures MarkSeparators(Join(lts, '+') + "++") == Join(lts, ' ') + " +"
  {
    MarkSeparatorsJoined(lts, "++");
    MarkSeparatorsDoublePlus();
  }

  lemma JoinSpacePlus(lts: seq<string>)
    requires |lts| >= 1
    ensures Join(lts + ["+"], ' ') == Join(lts, ' ') + " +"
  {
    JoinAppend(lts, "+", ' ');
    var spaced := Join(lts, ' ');
    assert spaced + " +" == spaced + [' '] + "+";
  }

  lemma SplitLiteralPlus(lts: seq<string>)
    requires |lts| >= 1
    requires forall i :: 0 <= i < |lts| ==> PlainToken(lts[i])
    ensures SplitSpace(MarkSeparators(Join(lts, '+') + "++")) == lts + ["+"]
  {
    var pieces := lts + ["+"];
    MarkSeparatorsJoinedDoublePlus(lts);
    JoinSpacePlus(lts);
    forall i | 0 <= i < |pieces| ensures ' ' !in pieces[i] {
      if i < |lts| { assert PlainToken(lts[i]); }
    }
    SplitSpaceJoin(pieces);
  }

  lemma ReplacePlus(moc: string)
    ensures Replace("+", moc) == "+"
  {
  }

  /** A `+` right after a separating `+` is the `+` key itself:
      `a+b++` has the tokens of `a+b` followed by `+`. */
  lemma HandleKeysLiteralPlus(ts: seq<string>, userAgent: string)
    requires |ts| >= 1
    requires forall i :: 0 <= i < |ts| ==> PlainToken(ts[i])
    ensures var r := HandleKeys(Join(ts, '+') + "++", userAgent).1;
      |r| == |ts| + 1 && r[|ts|] == "+" &&
      forall i :: 0 <= i < |ts| ==> r[i] == Replace(Lower(ts[i]), PlatformModifier(userAgent))
  {
    var lts := LowerAll(ts);
    forall i | 0 <= i < |ts| ensures PlainToken(lts[i]) { LowerPlain(ts[i]); }
    LowerLiteralPlus(ts);
    SplitLiteralPlus(lts);
    TokensOfPieces(Join(ts, '+') + "++", userAgent, lts + ["+"]);
    ReplacePlus(PlatformModifier(userAgent));
  }

  /** A string with no `+` and no space is one token. */
  lemma HandleKeysSingle(keys: string, userAgent: string)
    requires '+' !in keys && ' ' !in keys
    ensures HandleKeys(keys, userAgent).1 == [Replace(Lower(keys), PlatformModifier(userAgent))]
  {
    var lk := Lower(keys);
    forall i | 0 <= i < |keys| ensures lk[i] != '+' && lk[i] != ' ' {
      assert keys[i] != '+' && keys[i] != ' ';
    }
    MarkSeparatorsPlain(lk, "");
    assert lk + "" == lk;
    SplitFromPlain(lk, "", "");
    assert "" + lk == lk;
  }

  /** Normalizing the canonical string again changes nothing, and every
      token is already resolved. */
  lemma HandleKeysIdempotent(keys: string, userAgent: string)
    ensures HandleKeys(HandleKeys(keys, userAgent).0, userAgent) == HandleKeys(keys, userAgent)
    ensures var r := HandleKeys(keys, userAgent).1;
            forall i :: 0 <= i < |r| ==> Replace(r[i], PlatformModifier(userAgent)) == r[i]
  {
    LowerIdempotent(keys);
  }

  lemma JoinTwo(a: string, b: string)
    ensures Join([a, b], '+') == a + "+" + b
  {
    assert [a, b][1..] == [b];
  }

  /** Two plain keys joined by `+`. */
  lemma HandleKeysTwo(a: string, b: string, userAgent: string)
    requires PlainToken(a) && PlainToken(b)
    ensures HandleKeys(a + "+" + b, userAgent).1 ==
      [Replace(Lower(a), PlatformModifier(userAgent)), Replace(Lower(b), PlatformModifier(userAgent))]
  {
    JoinTwo(a, b);
    HandleKeysJoined([a, b], userAgent);
  }

  /** The control spellings resolve to `control` on every platform. */
  lemma ResolveControlExamples(userAgent: string)
    ensures Replace("control", PlatformModifier(userAgent)) == "control"
    ensures Replace("ctrl", PlatformModifier(userAgent)) == "control"
  {
  }

  /** The meta spellings resolve to `meta` on every platform. */
  lemma ResolveMetaExamples(userAgent: string)
    ensures Replace("meta", PlatformModifier(userAgent)) == "meta"
    ensures Replace("command", PlatformModifier(userAgent)) == "meta"
    ensures Replace("cmd", PlatformModifier(userAgent)) == "meta"
  {
  }

  /** Other keys resolve to themselves. */
  lemma ResolveLetterExamples(userAgent: string)
    ensures Replace("a", PlatformModifier(userAgent)) == "a"
    ensures Replace("b", PlatformModifier(userAgent)) == "b"
    ensures Replace("+", PlatformModifier(userAgent)) == "+"
  {
  }

  /** The "or" names of the unit tests resolve to `meta` on a mac. */
  lemma ResolveMacExamples(userAgent: string)
    requires IsMac(userAgent)
    ensures Replace("controlormeta", PlatformModifier(userAgent)) == "meta"
    ensures Replace("commandorcontrol", PlatformModifier(userAgent)) == "meta"
  {
  }

  /** ... and to `control` elsewhere. */
  lemma ResolveOffMacExamples(userAgent: string)
    requires !IsMac(userAgent)
    ensures Replace("controlormeta", PlatformModifier(userAgent)) == "control"
    ensures Replace("commandorcontrol", PlatformModifier(userAgent)) == "control"
  {
  }

  /** `Command+a`, `cmd+a`, `ControlOrMeta+a`, `CommandOrControl+a` ...:
      a meta spelling, or any "or" name on a mac, followed by a key gives
      `meta` and that key. */
  lemma HandleKeysMetaCombination(x: string, k: string, userAgent: string)
    requires PlainToken(x) && PlainToken(k)
    requires Lower(x) in MetaAlias || (Lower(x) in MetaOrControlList && IsMac(userAgent))
    ensures HandleKeys(x + "+" + k, userAgent).1 == ["meta", Replace(Lower(k), PlatformModifier(userAgent))]
  {
    HandleKeysTwo(x, k, userAgent);
    ReplaceCases(Lower(x), userAgent);
  }

  /** `Control+a`, `ctrl+a`, and `ControlOrMeta+a` off a mac: a control
      spelling, or any "or" name elsewhere, followed by a key gives
      `control` and that key. */
  lemma HandleKeysControlCombination(x: string, k: string, userAgent: string)
    requires PlainToken(x) && PlainToken(k)
    requires Lower(x) in CtrlAlias || (Lower(x) in MetaOrControlList && !IsMac(userAgent))
    ensures HandleKeys(x + "+" + k, userAgent).1 == ["control", Replace(Lower(k), PlatformModifier(userAgent))]
  {
    HandleKeysTwo(x, k, userAgent);
    ReplaceCases(Lower(x), userAgent);
  }

  /** `ControlOrMeta++` off a mac is `control` and the `+` key. */
  lemma HandleKeysOrNamePlusOffMac(x: string, userAgent: string)
    requires PlainToken(x) && Lower(x) in MetaOrControlList && !IsMac(userAgent)
    ensures HandleKeys(x + "++", userAgent).1 == ["control", "+"]
  {
    HandleKeysLiteralPlus([x], userAgent);
    assert Join([x], '+') == x;
    ReplaceCases(Lower(x), userAgent);
  }

  /** A lone space is a separator with an empty key on each side. */
  lemma HandleKeysSpace(userAgent: string)
    ensures HandleKeys(" ", userAgent).1 == ["", ""]
  {
    assert Lower(" ") == " ";
    assert MarkSeparators(" ") == " ";
    assert SplitSpace(" ") == ["", ""];
    assert Replace("", PlatformModifier(userAgent)) == "";
  }

  /** A user agent with `mac` or `darwin`, in any case, somewhere inside
      is a mac. */
  lemma IsMacInfix(before: string, word: string, after: string)
    requires Lower(word) == "mac" || Lower(word) == "darwin"
    ensures IsMac(before + word + after)
  {
    var s := before + word + after;
    LowerConcat(before + word, after);
    LowerConcat(before, word);
    var i := |before|;
    assert Lower(s)[i..i + |word|] == Lower(word);
    assert OccursAt(Lower(s), Lower(word), i);
  }

  /** Platform detection on short user agents. */
  lemma IsMacExamples()
    ensures !IsMac("1111") && !IsMac("")
    ensures IsMac("mac") && IsMac("Darwin")
  {
    assert OccursAt(Lower("mac"), "mac", 0);
    assert OccursAt(Lower("Darwin"), "darwin", 0);
  }

  /** The jsdom user agent of the unit tests. */
  lemma IsMacDarwinAgent()
    ensures IsMac("Mozilla/5.0 (" + "darwin" + ") AppleWebKit/537.36 (KHTML, like Gecko) jsdom/20.0.0")
  {
    IsMacInfix("Mozilla/5.0 (", "darwin", ") AppleWebKit/537.36 (KHTML, like Gecko) jsdom/20.0.0");
  }

  /** The desktop browser user agent of the unit tests. */
  lemma IsMacMacintoshAgent()
    ensures IsMac("Mozilla/5.0 (" + "Mac" + "intosh; Intel Mac OS X 10_15_7) AppleWebKit/537.36 (KHTML, like Gecko) Chrome/107.0.0.0 Safari/537.36 Edg/107.0.1418.56")
  {
    IsMacInfix("Mozilla/5.0 (", "Mac", "intosh; Intel Mac OS X 10_15_7) AppleWebKit/537.36 (KHTML, like Gecko) Chrome/107.0.0.0 Safari/537.36 Edg/107.0.1418.56");
  }

  /** `castArray`'s argument: a single value or an array of them. */
  datatype OneOrMany<T> = One(value: T) | Many(values: seq<T>)

  /** `castArray`: an array is returned as it is, anything else wrapped. */
  function CastArray<T>(v: OneOrMany<T>): (r: seq<T>)
    ensures v.Many? ==> r == v.values
    ensures v.One? ==> r == [v.value]
  {
    match v
    case One(x) => [x]
    case Many(xs) => xs
  }
}

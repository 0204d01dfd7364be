/**
 The byte budget of a context capsule: src/context-capsule.ts:166-348.  Headings and passages of a
 text are chosen elsewhere and are parameters here.
 */
module ContextBudget {
  import opened Utf8

  datatype Item = Item(id: string, content: Utf16, truncated: bool)

  datatype Passage = Passage(heading: Utf16, body: Utf16)

  /** How an item is shortened: in brief mode to an outline and passages, else to head and tail. */
  datatype Options = Options(isBrief: bool, headings: Utf16 -> seq<Utf16>, passages: Item -> seq<Passage>)

  const FLOOR := 256
  const LANES := 4

  // ---------------------------------------------------------------------------------------
  // Extractive briefs

  predicate Space(u: Unit) {
    || 9 <= u <= 13 || u == 32 || u == 0xA0 || u == 0x1680 || 0x2000 <= u <= 0x200A
    || u == 0x2028 || u == 0x2029 || u == 0x202F || u == 0x205F || u == 0x3000 || u == 0xFEFF
  }

  function TrimStart(s: Utf16): (r: nat)
    ensures r <= |s|
  {
    if |s| > 0 && Space(s[0]) then 1 + TrimStart(s[1..]) else 0
  }

  function TrimEnd(s: Utf16): (r: nat)
    ensures r <= |s|
  {
    if |s| > 0 && Space(s[|s| - 1]) then TrimEnd(s[..|s| - 1]) else |s|
  }

  function Trim(s: Utf16): Utf16 {
    var t := s[TrimStart(s)..];
    t[..TrimEnd(t)]
  }

  /** The white space and line ends of ECMAScript, code unit by code unit. */
  lemma SpaceIs(u: Unit)
    ensures Space(u) <==>
      u in {9, 10, 11, 12, 13, 32, 160, 5760, 8192, 8193, 8194, 8195, 8196, 8197, 8198, 8199, 8200, 8201, 8202, 8232, 8233, 8239, 8287, 12288, 65279}
  {
  }

  /** Trimming takes white space away at both ends, all of it, and nothing else. */
  lemma TrimTakesSpace(s: Utf16) returns (i: nat, j: nat)
    ensures i <= j <= |s| && Trim(s) == s[i..j]
    ensures (forall k :: 0 <= k < i ==> Space(s[k])) && (forall k :: j <= k < |s| ==> Space(s[k]))
    ensures i < j ==> !Space(s[i]) && !Space(s[j - 1])
  {
    hide Space;
    i := TrimStart(s);
    TrimStartIs(s);
    TrimEndIs(s[i..]);
    j := i + TrimEnd(s[i..]);
    forall k | j <= k < |s|
      ensures Space(s[k])
    {
      assert s[k] == s[i..][k - i];
    }
  }

  lemma {:induction false} TrimStartIs(s: Utf16)
    ensures forall k :: 0 <= k < TrimStart(s) ==> Space(s[k])
    ensures TrimStart(s) < |s| ==> !Space(s[TrimStart(s)])
  {
    hide Space;
    if |s| > 0 && Space(s[0]) {
      TrimStartIs(s[1..]);
      forall k | 0 <= k < TrimStart(s)
        ensures Space(s[k])
      {
        assert k > 0 ==> s[k] == s[1..][k - 1];
      }
    }
  }

  lemma {:induction false} TrimEndIs(s: Utf16)
    ensures forall k :: TrimEnd(s) <= k < |s| ==> Space(s[k])
    ensures TrimEnd(s) > 0 ==> !Space(s[TrimEnd(s) - 1])
  {
    hide Space;
    if |s| > 0 && Space(s[|s| - 1]) {
      TrimEndIs(s[..|s| - 1]);
      forall k | TrimEnd(s) <= k < |s|
        ensures Space(s[k])
      {
        assert k < |s| - 1 ==> s[k] == s[..|s| - 1][k];
      }
    }
  }

  lemma TrimShortens(s: Utf16)
    ensures Bytes(Trim(s)) <= Bytes(s)
  {
    hide Bytes;
    var t := s[TrimStart(s)..];
    SuffixMonotone(s, 0, TrimStart(s));
    assert s[0..] == s;
    PrefixMonotone(t, TrimEnd(t), |t|);
    assert t[..|t|] == t;
  }

  const NEWLINE: Utf16 := [10]
  const OUTLINE: Utf16 := [35, 35, 32, 79, 117, 116, 108, 105, 110, 101]     // "## Outline"

  function Bullets(headings: seq<Utf16>): Utf16 {
    if |headings| == 0 then [] else Bullets(headings[..|headings| - 1]) + NEWLINE + [45, 32] + headings[|headings| - 1]
  }

  function Outline(headings: seq<Utf16>): Utf16 {
    if |headings| == 0 then [] else OUTLINE + Bullets(headings) + NEWLINE + NEWLINE
  }

  function PassageText(p: Passage): Utf16 {
    if |p.heading| > 0 then [35, 35, 35, 32] + p.heading + NEWLINE + p.body else p.body
  }

  /** Array.prototype.join */
  function Join(lines: seq<Utf16>, separator: Utf16): Utf16 {
    if |lines| == 0 then [] else if |lines| == 1 then lines[0] else Join(lines[..|lines| - 1], separator) + separator + lines[|lines| - 1]
  }

  function Bulleted(headings: seq<Utf16>): seq<Utf16> {
    seq(|headings|, i requires 0 <= i < |headings| => Units("- ") + headings[i])
  }

  /** An outline is its title and one bullet for each heading, a line each, and a blank line; without headings there is none. */
  lemma OutlineIs(headings: seq<Utf16>)
    ensures Outline(headings) ==
      if headings == [] then [] else Join([Units("## Outline")] + Bulleted(headings), Units("\n")) + Units("\n\n")
  {
    BulletsJoin(headings);
    assert Units("\n\n") == NEWLINE + NEWLINE;
  }

  lemma {:induction false} BulletsJoin(headings: seq<Utf16>)
    ensures OUTLINE + Bullets(headings) == Join([Units("## Outline")] + Bulleted(headings), Units("\n"))
  {
    assert Units("## Outline") == OUTLINE && Units("\n") == NEWLINE && Units("- ") == [45, 32];
    hide Units;
    var lines := [Units("## Outline")] + Bulleted(headings);
    if |headings| > 0 {
      var fewer := headings[..|headings| - 1];
      BulletsJoin(fewer);
      assert Bulleted(headings)[..|headings| - 1] == Bulleted(fewer);
      assert lines[..|lines| - 1] == [Units("## Outline")] + Bulleted(fewer);
    }
  }

  /** A passage is shown under its heading, if it has one. */
  lemma PassageIs(p: Passage)
    ensures PassageText(p) == if p.heading == [] then p.body else Units("### ") + p.heading + Units("\n") + p.body
  {
  }

  /** The loop of buildExtractiveBrief from its n-th passage on, after `added` passages. */
  function Filled(passages: seq<Passage>, n: nat, text: Utf16, added: nat, maxBytes: int): (Utf16, nat)
    requires n <= |passages|
    decreases |passages| - n
  {
    if n == |passages| then (text, added)
    else
      var separator := if added > 0 then NEWLINE + NEWLINE else [];
      var passageText := PassageText(passages[n]);
      var candidate := text + separator + passageText;
      if Bytes(candidate) <= maxBytes then Filled(passages, n + 1, candidate, added + 1, maxBytes)
      else if added == 0 && maxBytes - Bytes(text + separator) >= 64
      then (text + separator + passageText[..PrefixEnd(passageText, maxBytes - Bytes(text + separator))], 1)
      else (text, added)
  }

  /** buildExtractiveBrief */
  function Brief(headings: seq<Utf16>, passages: seq<Passage>, maxBytes: int): Utf16 {
    var outline := Outline(headings);
    if Bytes(outline) >= maxBytes - 32 then []
    else
      var (text, added) := Filled(passages, 0, outline, 0, maxBytes);
      if added > 0 then Trim(text) else []
  }

  method BuildExtractiveBrief(headings: seq<Utf16>, passages: seq<Passage>, maxBytes: int) returns (r: Utf16)
    ensures r == Brief(headings, passages, maxBytes)
  {
    hide Bytes, PrefixEnd, Trim, PassageText, Outline;
    var outlineText := Outline(headings);
    if Bytes(outlineText) >= maxBytes - 32 { return []; }
    var currentText, addedPassageCount := outlineText, 0;
    var n := 0;
    while n < |passages|
      invariant n <= |passages|
      invariant Filled(passages, n, currentText, addedPassageCount, maxBytes) == Filled(passages, 0, outlineText, 0, maxBytes)
      decreases |passages| - n
    {
      var passageText := PassageText(passages[n]);
      var separator := if addedPassageCount > 0 then NEWLINE + NEWLINE else [];
      var candidate := currentText + separator + passageText;
      if Bytes(candidate) <= maxBytes {
        currentText := candidate;
        addedPassageCount := addedPassageCount + 1;
        n := n + 1;
      } else {
        if addedPassageCount == 0 {
          var remainingBytes := maxBytes - Bytes(currentText + separator);
          if remainingBytes >= 64 {
            var truncated := Prefix(passageText, remainingBytes);
            currentText := currentText + separator + truncated;
            addedPassageCount := addedPassageCount + 1;
          }
        }
        n := |passages|;
      }
    }
    return if addedPassageCount > 0 then Trim(currentText) else [];
  }

  lemma {:induction false} FilledFits(passages: seq<Passage>, n: nat, text: Utf16, added: nat, maxBytes: int)
    requires n <= |passages| && Bytes(text) <= maxBytes
    ensures Bytes(Filled(passages, n, text, added, maxBytes).0) <= maxBytes
    decreases |passages| - n
  {
    hide Bytes, PrefixEnd, PassageText;
    if n < |passages| {
      var separator := if added > 0 then NEWLINE + NEWLINE else [];
      var passageText := PassageText(passages[n]);
      var candidate := text + separator + passageText;
      if Bytes(candidate) <= maxBytes {
        FilledFits(passages, n + 1, candidate, added + 1, maxBytes);
      } else if added == 0 && maxBytes - Bytes(text + separator) >= 64 {
        var rest := maxBytes - Bytes(text + separator);
        PrefixAlwaysFits(passageText, rest);
        BytesJoin(text + separator, passageText[..PrefixEnd(passageText, rest)]);
      }
    }
  }

  lemma BriefFits(headings: seq<Utf16>, passages: seq<Passage>, maxBytes: int)
    requires maxBytes >= 0
    ensures Bytes(Brief(headings, passages, maxBytes)) <= maxBytes
  {
    hide Bytes, Filled, Trim, Outline;
    NothingHasNoBytes();
    var outline := Outline(headings);
    if Bytes(outline) < maxBytes - 32 {
      FilledFits(passages, 0, outline, 0, maxBytes);
      TrimShortens(Filled(passages, 0, outline, 0, maxBytes).0);
    }
  }

  /** The first passages, blank lines between them. */
  function Joined(passages: seq<Passage>): Utf16 {
    if |passages| == 0 then []
    else if |passages| == 1 then PassageText(passages[0])
    else Joined(passages[..|passages| - 1]) + (NEWLINE + NEWLINE) + PassageText(passages[|passages| - 1])
  }

  /** The text is the outline with the first `n` passages, and one passage more would not fit. */
  ghost predicate Holds(outline: Utf16, passages: seq<Passage>, n: nat, text: Utf16, maxBytes: int) {
    && n <= |passages| && text == outline + Joined(passages[..n])
    && (n < |passages| ==> Bytes(outline + Joined(passages[..n + 1])) > maxBytes)
  }

  /** Not even the first passage fits, and at least 64 bytes are left for it: the text is the outline with as much of it as fits. */
  ghost predicate HoldsCut(outline: Utf16, passages: seq<Passage>, text: Utf16, maxBytes: int) {
    var rest := maxBytes - Bytes(outline);
    && |passages| > 0 && rest >= 64 && Bytes(outline + PassageText(passages[0])) > maxBytes
    && text == outline + PassageText(passages[0])[..PrefixEnd(PassageText(passages[0]), rest)]
  }

  /** What the loop over the passages leaves: whole ones, or a cut one, or none at all where less than 64 bytes are left. */
  ghost predicate Fills(outline: Utf16, passages: seq<Passage>, text: Utf16, added: nat, maxBytes: int) {
    || (Holds(outline, passages, added, text, maxBytes) && (added == 0 && |passages| > 0 ==> maxBytes - Bytes(outline) < 64))
    || (added == 1 && HoldsCut(outline, passages, text, maxBytes))
  }

  /**
   A brief is empty if the outline leaves at most 32 bytes.  Otherwise it is, trimmed, the outline with
   as many whole passages as fit, in order, or with the first one cut to what is left if not even that
   fits; and empty if that leaves no passage, because there is none or because less than 64 bytes are left.
   */
  lemma BriefTakesWhatFits(headings: seq<Utf16>, passages: seq<Passage>, maxBytes: int)
    ensures var outline, brief := Outline(headings), Brief(headings, passages, maxBytes);
      if Bytes(outline) >= maxBytes - 32 then brief == []
      else exists text, added :: Fills(outline, passages, text, added, maxBytes) && brief == if added > 0 then Trim(text) else []
  {
    hide Bytes, PrefixEnd, PassageText, Outline, Trim, Filled, Fills;
    var outline := Outline(headings);
    assert outline + Joined(passages[..0]) == outline;
    FilledTakesWhatFits(outline, passages, 0, outline, maxBytes);
    var (text, added) := Filled(passages, 0, outline, 0, maxBytes);
    if Bytes(outline) < maxBytes - 32 {
      assert Fills(outline, passages, text, added, maxBytes) && Brief(headings, passages, maxBytes) == if added > 0 then Trim(text) else [];
    }
  }

  lemma {:induction false} FilledTakesWhatFits(outline: Utf16, passages: seq<Passage>, n: nat, current: Utf16, maxBytes: int)
    requires n <= |passages| && current == outline + Joined(passages[..n])
    ensures var (text, added) := Filled(passages, n, current, n, maxBytes); Fills(outline, passages, text, added, maxBytes)
    decreases |passages| - n
  {
    hide Bytes, PrefixEnd, PassageText;
    if n < |passages| {
      var separator := if n > 0 then NEWLINE + NEWLINE else [];
      var candidate := current + separator + PassageText(passages[n]);
      OneMorePassage(outline, passages, n);
      if Bytes(candidate) <= maxBytes {
        FilledTakesWhatFits(outline, passages, n + 1, candidate, maxBytes);
      } else if n == 0 {
        assert current == outline && current + separator == outline;
      }
    }
  }

  lemma OneMorePassage(outline: Utf16, passages: seq<Passage>, n: nat)
    requires n < |passages|
    ensures outline + Joined(passages[..n]) + (if n > 0 then NEWLINE + NEWLINE else []) + PassageText(passages[n])
      == outline + Joined(passages[..n + 1])
  {
    hide PassageText;
    assert passages[..n + 1][..n] == passages[..n];
  }

  lemma NothingHasNoBytes()
    ensures Bytes([]) == 0
  {
  }

  // ---------------------------------------------------------------------------------------
  // One item

  /** The content boundContextItem gives an item that is longer than its allowance. */
  function Shortened(item: Item, allowance: int, options: Options): Utf16 {
    var passages := options.passages(item);
    var brief := if options.isBrief && |passages| > 0 then Brief(options.headings(item.content), passages, allowance) else [];
    if |brief| > 0 then brief else Truncated(item.content, allowance)
  }

  /** boundContextItem */
  function Bounded(item: Item, allowance: int, options: Options): Item {
    if Bytes(item.content) <= allowance then item
    else item.(content := Shortened(item, allowance, options), truncated := true)
  }

  /**
   An item within its allowance is shown as it is; a longer one in brief mode by its brief, if it has any,
   and otherwise by its head and tail.
   */
  ghost predicate ShownAs(item: Item, bounded: Item, allowance: int, options: Options) {
    && bounded.id == item.id
    && (Bytes(item.content) <= allowance ==> bounded == item)
    && (Bytes(item.content) > allowance ==>
          var brief := Brief(options.headings(item.content), options.passages(item), allowance);
          && bounded.truncated
          && (options.isBrief && brief != [] ==> bounded.content == brief)
          && (!options.isBrief || brief == [] ==> bounded.content == Truncated(item.content, allowance)))
  }

  method BoundContextItem(item: Item, allowance: int, options: Options) returns (bounded: Item, emittedBytes: nat, truncated: bool)
    requires allowance >= 0
    ensures bounded == Bounded(item, allowance, options)
    ensures emittedBytes == Bytes(bounded.content) && emittedBytes <= allowance
    ensures truncated <==> Bytes(item.content) > allowance
    ensures ShownAs(item, bounded, allowance, options)
  {
    hide Bytes, Brief, Truncated;
    BoundedFits(item, allowance, options);
    NoPassagesNoBrief(options.headings(item.content), options.passages(item), allowance);
    var originalBytes := Bytes(item.content);
    if originalBytes <= allowance { return item, originalBytes, false; }
    if options.isBrief {
      var passages := options.passages(item);
      var briefContent: Utf16 := [];
      if |passages| > 0 {
        briefContent := BuildExtractiveBrief(options.headings(item.content), passages, allowance);
      }
      if |briefContent| > 0 {
        return item.(content := briefContent, truncated := true), Bytes(briefContent), true;
      }
    }
    var content := TruncateHeadTail(item.content, allowance);
    return item.(content := content, truncated := true), Bytes(content), true;
  }

  lemma NoPassagesNoBrief(headings: seq<Utf16>, passages: seq<Passage>, maxBytes: int)
    ensures passages == [] ==> Brief(headings, passages, maxBytes) == []
  {
    hide Bytes;
  }

  /** A bounded item is within its allowance, and is the item itself if that already was. */
  lemma BoundedFits(item: Item, allowance: int, options: Options)
    requires allowance >= 0
    ensures Bytes(Bounded(item, allowance, options).content) <= allowance
    ensures Bytes(item.content) <= allowance ==> Bounded(item, allowance, options) == item
  {
    hide Bytes, Brief, Truncated;
    BriefFits(options.headings(item.content), options.passages(item), allowance);
    TruncatedFits(item.content, allowance);
  }

  // ---------------------------------------------------------------------------------------
  // The budget

  function TotalBytes(items: seq<Item>): nat {
    if |items| == 0 then 0 else TotalBytes(items[..|items| - 1]) + Bytes(items[|items| - 1].content)
  }

  function Count(lanes: seq<seq<Item>>): nat {
    if |lanes| == 0 then 0 else Count(lanes[..|lanes| - 1]) + |lanes[|lanes| - 1]|
  }

  function LaneBytes(lanes: seq<seq<Item>>): nat {
    if |lanes| == 0 then 0 else LaneBytes(lanes[..|lanes| - 1]) + TotalBytes(lanes[|lanes| - 1])
  }

  lemma {:induction false} CountPush(lanes: seq<seq<Item>>, k: nat, item: Item)
    requires k < |lanes|
    ensures Count(lanes[k := lanes[k] + [item]]) == Count(lanes) + 1
    ensures LaneBytes(lanes[k := lanes[k] + [item]]) == LaneBytes(lanes) + Bytes(item.content)
  {
    hide Bytes;
    var pushed := lanes[k := lanes[k] + [item]];
    assert (lanes[k] + [item])[..|lanes[k]|] == lanes[k];
    if k == |lanes| - 1 {
      assert pushed[..|lanes| - 1] == lanes[..|lanes| - 1];
    } else {
      CountPush(lanes[..|lanes| - 1], k, item);
      assert pushed[..|lanes| - 1] == lanes[..|lanes| - 1][k := lanes[k] + [item]];
    }
  }

  /** How many items have been passed over or emitted, lane by lane. */
  function Visited(cursor: seq<nat>): nat {
    if |cursor| == 0 then 0 else Visited(cursor[..|cursor| - 1]) + cursor[|cursor| - 1]
  }

  lemma {:induction false} VisitedMoves(cursor: seq<nat>, k: nat, index: nat)
    requires k < |cursor| && cursor[k] <= index
    ensures Visited(cursor[k := index]) == Visited(cursor) + (index - cursor[k])
  {
    var moved := cursor[k := index];
    if k == |cursor| - 1 {
      assert moved[..|cursor| - 1] == cursor[..|cursor| - 1];
    } else {
      VisitedMoves(cursor[..|cursor| - 1], k, index);
      assert moved[..|cursor| - 1] == cursor[..|cursor| - 1][k := index];
    }
  }

  lemma {:induction false} VisitedAtMost(cursor: seq<nat>, input: seq<seq<Item>>)
    requires |cursor| == |input| && forall k :: 0 <= k < |input| ==> cursor[k] <= |input[k]|
    ensures Visited(cursor) <= Count(input)
  {
    if |cursor| > 0 {
      VisitedAtMost(cursor[..|cursor| - 1], input[..|input| - 1]);
    }
  }

  /** What had been emitted when item `i` of lane `k` had its turn: the lanes before it were one round ahead. */
  function Earlier(output: seq<seq<Item>>, k: nat, i: nat): seq<seq<Item>> {
    seq(|output|, l requires 0 <= l < |output| => output[l][..Least(if l < k then i + 1 else i, |output[l]|)])
  }

  /** The item limit or what was left, whichever is smaller. */
  function Allowance(output: seq<seq<Item>>, k: nat, i: nat, maxContent: int, maxItem: int): int {
    var left := maxContent - LaneBytes(Earlier(output, k, i));
    if maxItem <= left then maxItem else left
  }

  ghost predicate EmittedAt(input: seq<seq<Item>>, output: seq<seq<Item>>, k: nat, i: nat, maxContent: int, maxItem: int, options: Options)
    requires k < |input| && k < |output| && i < |output[k]| && i < |input[k]|
  {
    var allowance := Allowance(output, k, i, maxContent, maxItem);
    allowance >= 256 && output[k][i] == Bounded(input[k][i], allowance, options)
  }

  /** Each lane of the output is a prefix of its input, each item bounded by what it was allowed in its turn. */
  ghost predicate LanesFit(input: seq<seq<Item>>, output: seq<seq<Item>>, maxContent: int, maxItem: int, options: Options) {
    && |output| == |input|
    && (forall k :: 0 <= k < |input| ==> |output[k]| <= |input[k]|)
    && forall k, i {:trigger output[k][i]} :: 0 <= k < |input| && 0 <= i < |output[k]| ==>
         EmittedAt(input, output, k, i, maxContent, maxItem, options)
  }

  /** No lane gets ahead: a lane behind another one, or behind it by more than one if it comes first, is exhausted. */
  ghost predicate RoundRobin(input: seq<seq<Item>>, output: seq<seq<Item>>)
    requires |input| == |output|
  {
    forall j, k :: 0 <= j < k < |input| ==>
      && (|output[j]| < |output[k]| ==> |output[j]| == |input[j]|)
      && (|output[k]| + 1 < |output[j]| ==> |output[k]| == |input[k]|)
  }

  /** How many items of a lane were changed on the way. */
  function LaneChanged(input: seq<Item>, output: seq<Item>): nat
    requires |output| <= |input|
  {
    if |output| == 0 then 0
    else LaneChanged(input, output[..|output| - 1]) + if output[|output| - 1] != input[|output| - 1] then 1 else 0
  }

  function Changed(input: seq<seq<Item>>, output: seq<seq<Item>>): nat
    requires |output| == |input| && forall k :: 0 <= k < |input| ==> |output[k]| <= |input[k]|
  {
    if |input| == 0 then 0
    else Changed(input[..|input| - 1], output[..|input| - 1]) + LaneChanged(input[|input| - 1], output[|input| - 1])
  }

  lemma {:induction false} ChangedPush(input: seq<seq<Item>>, output: seq<seq<Item>>, k: nat, item: Item)
    requires |output| == |input| && (forall l :: 0 <= l < |input| ==> |output[l]| <= |input[l]|)
    requires k < |input| && |output[k]| < |input[k]|
    ensures Changed(input, output[k := output[k] + [item]]) == Changed(input, output) + if item != input[k][|output[k]|] then 1 else 0
  {
    var pushed := output[k := output[k] + [item]];
    var n := |input| - 1;
    assert (output[k] + [item])[..|output[k]|] == output[k];
    if k == n {
      assert pushed[..n] == output[..n];
    } else {
      ChangedPush(input[..n], output[..n], k, item);
      assert pushed[..n] == output[..n][k := output[k] + [item]];
    }
  }

  /** After `k` lanes of the given round every lane has had its turns, as far as it goes. */
  ghost predicate Fair(input: seq<seq<Item>>, output: seq<seq<Item>>, round: nat, k: nat)
    requires |output| == |input|
  {
    forall l :: 0 <= l < |input| ==> |output[l]| == Least(if l < k then round + 1 else round, |input[l]|)
  }

  function Least(a: nat, b: nat): nat {
    if a <= b then a else b
  }

  lemma FairIsRoundRobin(input: seq<seq<Item>>, output: seq<seq<Item>>, round: nat, k: nat)
    requires |output| == |input| && Fair(input, output, round, k)
    ensures RoundRobin(input, output)
  {
  }

  lemma FairNextRound(input: seq<seq<Item>>, output: seq<seq<Item>>, round: nat)
    requires |output| == |input| && Fair(input, output, round, |input|)
    ensures Fair(input, output, round + 1, 0)
  {
  }

  lemma FairSkip(input: seq<seq<Item>>, output: seq<seq<Item>>, round: nat, k: nat)
    requires |output| == |input| && k < |input| && Fair(input, output, round, k) && |output[k]| == |input[k]|
    ensures Fair(input, output, round, k + 1)
  {
  }

  lemma FairPush(input: seq<seq<Item>>, output: seq<seq<Item>>, round: nat, k: nat, item: Item)
    requires |output| == |input| && k < |input| && Fair(input, output, round, k) && |output[k]| < |input[k]|
    ensures Fair(input, output[k := output[k] + [item]], round, k + 1)
  {
  }

  /** The next item had its turn after everything emitted so far. */
  lemma NextIsLast(input: seq<seq<Item>>, output: seq<seq<Item>>, round: nat, k: nat, item: Item)
    requires |output| == |input| && k < |input| && Fair(input, output, round, k) && |output[k]| < |input[k]|
    ensures Earlier(output[k := output[k] + [item]], k, |output[k]|) == output
  {
    var pushed := output[k := output[k] + [item]];
    var earlier := Earlier(pushed, k, |output[k]|);
    forall l | 0 <= l < |output|
      ensures earlier[l] == output[l]
    {
      assert |output[l]| == Least(if l < k then round + 1 else round, |input[l]|);
    }
  }

  /** It does not change what came before the others. */
  lemma EarlierStays(input: seq<seq<Item>>, output: seq<seq<Item>>, round: nat, k: nat, item: Item, m: nat, i: nat)
    requires |output| == |input| && k < |input| && Fair(input, output, round, k) && |output[k]| < |input[k]|
    requires m < |output| && i < |output[m]|
    ensures Earlier(output[k := output[k] + [item]], m, i) == Earlier(output, m, i)
  {
    var pushed := output[k := output[k] + [item]];
    assert |output[k]| == round && |output[m]| <= if m < k then round + 1 else round;
    forall l | 0 <= l < |output|
      ensures Earlier(pushed, m, i)[l] == Earlier(output, m, i)[l]
    {
      if l == k {
        var n := Least(if l < m then i + 1 else i, |output[l]|);
        assert (output[k] + [item])[..n] == output[k][..n];
      }
    }
  }

  lemma LanePush(input: seq<seq<Item>>, output: seq<seq<Item>>, round: nat, k: nat, allowance: int, maxContent: int, maxItem: int, options: Options)
    requires LanesFit(input, output, maxContent, maxItem, options) && k < |input| && |output[k]| < |input[k]|
    requires Fair(input, output, round, k) && allowance >= FLOOR
    requires allowance == if maxItem <= maxContent - LaneBytes(output) then maxItem else maxContent - LaneBytes(output)
    ensures LanesFit(input, output[k := output[k] + [Bounded(input[k][|output[k]|], allowance, options)]], maxContent, maxItem, options)
  {
    hide Bounded, Fair, Earlier, LaneBytes;
    var item := Bounded(input[k][|output[k]|], allowance, options);
    var pushed := output[k := output[k] + [item]];
    NextIsLast(input, output, round, k, item);
    forall m, i | 0 <= m < |input| && 0 <= i < |pushed[m]|
      ensures EmittedAt(input, pushed, m, i, maxContent, maxItem, options)
    {
      if i < |output[m]| {
        EarlierStays(input, output, round, k, item, m, i);
        assert output[m][i] == pushed[m][i];
      }
    }
  }

  datatype Budget = Budget(emittedContentBytes: nat, truncatedItems: nat, droppedItems: nat)

  /** What holds of the output and the counters whenever lane `k` of a round is next. */
  ghost predicate Books(input: seq<seq<Item>>, output: seq<seq<Item>>, cursor: seq<nat>, budget: Budget, remaining: int,
                        maxContent: int, maxItem: int, options: Options) {
    && LanesFit(input, output, maxContent, maxItem, options)
    && |cursor| == |input| == |output|
    && (forall l :: 0 <= l < |input| ==> |output[l]| <= cursor[l] <= |input[l]|)
    && budget.droppedItems + Count(output) == Visited(cursor)
    && budget.emittedContentBytes == LaneBytes(output) && remaining == maxContent - budget.emittedContentBytes
    && (forall l :: 0 <= l < |input| ==> |output[l]| <= |input[l]|)
    && budget.truncatedItems == Changed(input, output)
  }

  /** One item is emitted. */
  lemma BooksEmit(input: seq<seq<Item>>, output: seq<seq<Item>>, cursor: seq<nat>, budget: Budget, remaining: int,
                  maxContent: int, maxItem: int, options: Options, round: nat, k: nat, allowance: int)
    requires Books(input, output, cursor, budget, remaining, maxContent, maxItem, options)
    requires k < |input| && cursor[k] == |output[k]| < |input[k]| && Fair(input, output, round, k)
    requires FLOOR <= allowance == if maxItem <= remaining then maxItem else remaining
    ensures var item := input[k][|output[k]|]; var bounded := Bounded(item, allowance, options);
      Books(input, output[k := output[k] + [bounded]], cursor[k := cursor[k] + 1],
            Budget(budget.emittedContentBytes + Bytes(bounded.content),
                   budget.truncatedItems + (if Bytes(item.content) > allowance then 1 else 0), budget.droppedItems),
            remaining - Bytes(bounded.content), maxContent, maxItem, options)
  {
    hide Bytes, Bounded, LanesFit, Fair;
    var item := input[k][|output[k]|];
    var bounded := Bounded(item, allowance, options);
    LanePush(input, output, round, k, allowance, maxContent, maxItem, options);
    CountPush(output, k, bounded);
    VisitedMoves(cursor, k, cursor[k] + 1);
    ChangedPush(input, output, k, bounded);
    ChangedIffLong(item, allowance, options);
  }

  lemma ChangedIffLong(item: Item, allowance: int, options: Options)
    requires allowance >= 0
    ensures Bounded(item, allowance, options) != item <==> Bytes(item.content) > allowance
  {
    hide Bytes, Shortened;
    BoundedFits(item, allowance, options);
  }

  /** The rest of a lane is dropped. */
  lemma BooksDrop(input: seq<seq<Item>>, output: seq<seq<Item>>, cursor: seq<nat>, budget: Budget, remaining: int,
                  maxContent: int, maxItem: int, options: Options, k: nat)
    requires Books(input, output, cursor, budget, remaining, maxContent, maxItem, options)
    requires k < |input|
    ensures Books(input, output, cursor[k := |input[k]|],
                  budget.(droppedItems := budget.droppedItems + (|input[k]| - cursor[k])), remaining, maxContent, maxItem, options)
  {
    hide LanesFit;
    VisitedMoves(cursor, k, |input[k]|);
  }

  lemma {:induction false} NothingEmitted(input: seq<seq<Item>>, output: seq<seq<Item>>)
    requires |output| == |input| && forall k :: 0 <= k < |output| ==> output[k] == []
    ensures Count(output) == 0 && LaneBytes(output) == 0 && Changed(input, output) == 0
  {
    if |output| > 0 {
      NothingEmitted(input[..|input| - 1], output[..|output| - 1]);
    }
  }

  lemma {:induction false} NothingVisited(cursor: seq<nat>)
    requires forall k :: 0 <= k < |cursor| ==> cursor[k] == 0
    ensures Visited(cursor) == 0
  {
    if |cursor| > 0 {
      NothingVisited(cursor[..|cursor| - 1]);
    }
  }

  lemma NoOutput(input: seq<seq<Item>>, cursor: seq<nat>, maxContent: int, maxItem: int, options: Options)
    requires |input| == LANES && cursor == [0, 0, 0, 0]
    ensures Books(input, [[], [], [], []], cursor, Budget(0, 0, 0), maxContent, maxContent, maxItem, options)
    ensures Fair(input, [[], [], [], []], 0, 0) && InStep([[], [], [], []], cursor)
  {
    hide Changed, Count, LaneBytes, Visited;
    NothingEmitted(input, [[], [], [], []]);
    NothingVisited(cursor);
  }

  lemma {:induction false} VisitedAll(cursor: seq<nat>, input: seq<seq<Item>>)
    requires |cursor| == |input| && forall k :: 0 <= k < |input| ==> cursor[k] == |input[k]|
    ensures Visited(cursor) == Count(input)
  {
    if |cursor| > 0 {
      VisitedAll(cursor[..|cursor| - 1], input[..|input| - 1]);
    }
  }

  /**
   applyContextBudget.  The lanes take turns; each emitted item is bounded by the item limit or by what
   the items before it have left, whichever is smaller; items are dropped only if one of the two is below
   the floor in the end.  Emitted and dropped items are together all items, the emitted bytes stay within
   the total, and each lane of the output is a prefix of its input up to the bounding of single items.
   */
  method ApplyContextBudget(input: seq<seq<Item>>, maxContent: int, maxItem: int, options: Options)
    returns (output: seq<seq<Item>>, budget: Budget)
    requires |input| == LANES
    ensures LanesFit(input, output, maxContent, maxItem, options) && RoundRobin(input, output)
    ensures budget.emittedContentBytes == LaneBytes(output) && (budget.emittedContentBytes <= maxContent || maxContent < 0)
    ensures maxContent < 0 ==> budget.emittedContentBytes == 0
    ensures budget.droppedItems + Count(output) == Count(input)
    ensures budget.droppedItems > 0 ==> maxItem < 256 || maxContent - budget.emittedContentBytes < 256
    ensures (forall l :: 0 <= l < |input| ==> |output[l]| <= |input[l]|) && budget.truncatedItems == Changed(input, output)
  {
    hide ShownAs, Bytes, Bounded, Books, Fair, RoundRobin, LanesFit, Changed, Count, LaneBytes, Visited, InStep;
    output := [[], [], [], []];
    budget := Budget(0, 0, 0);
    var cursor: seq<nat> := [0, 0, 0, 0];
    var remaining := maxContent;
    ghost var round, starved := 0, false;
    NoOutput(input, cursor, maxContent, maxItem, options);
    FairIsRoundRobin(input, output, 0, 0);
    while remaining > 0 && exists k :: 0 <= k < LANES && cursor[k] < |input[k]|
      invariant |cursor| == LANES && |output| == LANES && Books(input, output, cursor, budget, remaining, maxContent, maxItem, options)
      invariant RoundRobin(input, output)
      invariant !starved ==> Fair(input, output, round, 0) && InStep(output, cursor)
      invariant if starved then remaining < FLOOR || maxItem < FLOOR else budget.droppedItems == 0
      invariant remaining >= 0 || (maxContent < 0 && budget.emittedContentBytes == 0)
      decreases Count(input) - Visited(cursor)
    {
      var progressed := false;
      ghost var before := Visited(cursor);
      BooksBound(input, output, cursor, budget, remaining, maxContent, maxItem, options);
      var k := 0;
      while k < LANES
        invariant 0 <= k <= LANES
        invariant |cursor| == LANES && |output| == LANES && Books(input, output, cursor, budget, remaining, maxContent, maxItem, options)
        invariant RoundRobin(input, output)
        invariant !starved ==> Fair(input, output, round, k) && InStep(output, cursor)
        invariant if starved then remaining < FLOOR || maxItem < FLOOR else budget.droppedItems == 0
        invariant remaining >= 0 && before <= Visited(cursor)
        invariant !progressed ==> forall l :: 0 <= l < k ==> cursor[l] >= |input[l]|
        invariant progressed ==> before < Visited(cursor)
        decreases LANES - k
      {
        BooksBound(input, output, cursor, budget, remaining, maxContent, maxItem, options);
        var index := cursor[k];
        if !starved { InStepAt(output, cursor, k); }
        if index >= |input[k]| {
          if !starved { FairSkip(input, output, round, k); }
          k := k + 1;
          continue;
        }
        progressed := true;
        var allowance := if maxItem <= remaining then maxItem else remaining;
        if allowance < FLOOR {
          starved := true;
          VisitedMoves(cursor, k, |input[k]|);
          BooksDrop(input, output, cursor, budget, remaining, maxContent, maxItem, options, k);
          budget := budget.(droppedItems := budget.droppedItems + (|input[k]| - index));
          cursor := cursor[k := |input[k]|];
          k := k + 1;
          continue;
        }
        var bounded, emittedBytes, truncated := BoundContextItem(input[k][index], allowance, options);
        BooksEmit(input, output, cursor, budget, remaining, maxContent, maxItem, options, round, k, allowance);
        VisitedMoves(cursor, k, index + 1);
        FairPush(input, output, round, k, bounded);
        InStepPush(output, cursor, k, bounded);
        output := output[k := output[k] + [bounded]];
        cursor := cursor[k := index + 1];
        budget := Budget(budget.emittedContentBytes + emittedBytes, budget.truncatedItems + (if truncated then 1 else 0), budget.droppedItems);
        remaining := remaining - emittedBytes;
        k := k + 1;
        FairIsRoundRobin(input, output, round, k);
        if remaining <= 0 {
          starved := true;
          break;
        }
      }
      if !starved { FairNextRound(input, output, round); }
      round := round + 1;
      BooksBound(input, output, cursor, budget, remaining, maxContent, maxItem, options);
      if !progressed { break; }
    }
    budget := DropRest(input, output, cursor, budget, remaining, maxContent, maxItem, options);
  }

  /** The last loop: what the cursors have not reached is dropped. */
  method DropRest(input: seq<seq<Item>>, ghost output: seq<seq<Item>>, reached: seq<nat>, counted: Budget, ghost remaining: int,
                  ghost maxContent: int, ghost maxItem: int, ghost options: Options) returns (budget: Budget)
    requires |input| == LANES && Books(input, output, reached, counted, remaining, maxContent, maxItem, options)
    ensures |output| == LANES && LanesFit(input, output, maxContent, maxItem, options) && budget.droppedItems + Count(output) == Count(input)
    ensures (forall l :: 0 <= l < |input| ==> |output[l]| <= |input[l]|) && budget.truncatedItems == Changed(input, output)
    ensures (forall l :: 0 <= l < LANES ==> reached[l] >= |input[l]|) ==> budget.droppedItems == counted.droppedItems
    ensures budget.emittedContentBytes == LaneBytes(output) == counted.emittedContentBytes && remaining == maxContent - budget.emittedContentBytes
  {
    hide Bytes, Books, LanesFit, Changed, Count, LaneBytes, Visited;
    var cursor: seq<nat> := reached;
    budget := counted;
    BooksBound(input, output, cursor, budget, remaining, maxContent, maxItem, options);
    for k := 0 to LANES
      invariant |cursor| == LANES && |output| == LANES && Books(input, output, cursor, budget, remaining, maxContent, maxItem, options)
      invariant forall l :: 0 <= l < k ==> cursor[l] == |input[l]|
      invariant budget.emittedContentBytes == counted.emittedContentBytes
      invariant forall l :: k <= l < LANES ==> cursor[l] == reached[l]
      invariant (forall l :: 0 <= l < k ==> reached[l] >= |input[l]|) ==> budget.droppedItems == counted.droppedItems
    {
      BooksBound(input, output, cursor, budget, remaining, maxContent, maxItem, options);
      BooksDrop(input, output, cursor, budget, remaining, maxContent, maxItem, options, k);
      if cursor[k] < |input[k]| {
        budget := budget.(droppedItems := budget.droppedItems + (|input[k]| - cursor[k]));
        cursor := cursor[k := |input[k]|];
      }
      assert cursor == cursor[k := |input[k]|];
    }
    BooksClosed(input, output, cursor, budget, remaining, maxContent, maxItem, options);
  }

  /** No lane has been passed over. */
  ghost predicate InStep(output: seq<seq<Item>>, cursor: seq<nat>) {
    |cursor| == |output| && forall k :: 0 <= k < |output| ==> cursor[k] == |output[k]|
  }

  lemma InStepAt(output: seq<seq<Item>>, cursor: seq<nat>, k: nat)
    requires InStep(output, cursor) && k < |output|
    ensures cursor[k] == |output[k]|
  {
  }

  lemma InStepPush(output: seq<seq<Item>>, cursor: seq<nat>, k: nat, item: Item)
    requires InStep(output, cursor) && k < |output|
    ensures InStep(output[k := output[k] + [item]], cursor[k := cursor[k] + 1])
  {
  }

  lemma BooksBound(input: seq<seq<Item>>, output: seq<seq<Item>>, cursor: seq<nat>, budget: Budget, remaining: int,
                   maxContent: int, maxItem: int, options: Options)
    requires Books(input, output, cursor, budget, remaining, maxContent, maxItem, options)
    ensures |cursor| == |input| == |output| && (forall l :: 0 <= l < |input| ==> |output[l]| <= cursor[l] <= |input[l]|)
    ensures Visited(cursor) <= Count(input)
    ensures remaining == maxContent - budget.emittedContentBytes
  {
    hide LanesFit;
    VisitedAtMost(cursor, input);
  }

  lemma BooksClosed(input: seq<seq<Item>>, output: seq<seq<Item>>, cursor: seq<nat>, budget: Budget, remaining: int,
                    maxContent: int, maxItem: int, options: Options)
    requires Books(input, output, cursor, budget, remaining, maxContent, maxItem, options)
    requires forall l :: 0 <= l < |input| ==> cursor[l] == |input[l]|
    ensures LanesFit(input, output, maxContent, maxItem, options) && budget.droppedItems + Count(output) == Count(input)
    ensures (forall l :: 0 <= l < |input| ==> |output[l]| <= |input[l]|) && budget.truncatedItems == Changed(input, output)
    ensures budget.emittedContentBytes == LaneBytes(output) && remaining == maxContent - budget.emittedContentBytes
  {
    hide LanesFit, Changed;
    VisitedAll(cursor, input);
  }
}

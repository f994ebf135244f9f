/**
 * The three decision tools of the harness (voice_eval/mcp_tools.py): slot
 * extraction, the policy decision table and the response templates. Every tool
 * answers with the same envelope, a ToolResult.
 */
module McpTools {
  import opened Common
  import opened Regex

  /** The slot (fact) map; every value the pipeline stores is a string. */
  type Slots = map<string, string>

  /** The `data` of a ToolResult, per tool. */
  datatype Payload =
    | SlotsData(slots: Slots)                     // extract_slots
    | ActionData(action: string)                  // policy_decision: {"action": ...}
    | ReplyData(action: string, utterance: string)  // generate_response
    | NoData                                      // None

  datatype ToolResult = ToolResult(success: bool, data: Payload, error: Option<string>)

  const OrderKey := "order_number"
  const CardKey := "card_info"

  // ---------------------------------------------------------------------------
  // Slot extraction

  /** order\s+(\d{1,3}(?:,\d{3})*(?:-\d+)?) */
  const OrderGrouped := Pattern([Word("order"), Spaces], Grouped(true))
  /** order\s+(\d+) */
  const OrderDigits := Pattern([Word("order"), Spaces], Digits)
  /** order\s+#?(\d+) */
  const OrderHash := Pattern([Word("order"), Spaces, OptionalHash], Digits)
  /** order\s+number\s+is\s+(\d+) */
  const OrderNumberIs := Pattern([Word("order"), Spaces, Word("number"), Spaces, Word("is"), Spaces], Digits)
  /** my\s+order\s+number\s+is\s+(\d+) */
  const MyOrderNumberIs :=
    Pattern([Word("my"), Spaces, Word("order"), Spaces, Word("number"), Spaces, Word("is"), Spaces], Digits)
  /** card\s+ending\s+(\d{1,3}(?:,\d{3})*) */
  const CardGrouped := Pattern([Word("card"), Spaces, Word("ending"), Spaces], Grouped(false))
  /** card\s+ending\s+(\d{4}) */
  const CardFourDigits := Pattern([Word("card"), Spaces, Word("ending"), Spaces], FourDigits)

  const OrderPatterns: seq<Pattern> := [OrderGrouped, OrderDigits, OrderHash, OrderNumberIs, MyOrderNumberIs]
  const CardPatterns: seq<Pattern> := [CardGrouped, CardFourDigits]

  /** Index of the first pattern of the list that `re.search` finds in s. */
  function FirstMatching(patterns: seq<Pattern>, s: string): (r: Option<nat>)
    ensures r.Some? ==> r.value < |patterns| && Search(patterns[r.value], s).Some?
  {
    if |patterns| == 0 then None
    else if Search(patterns[0], s).Some? then Some(0)
    else
      match FirstMatching(patterns[1..], s)
      case None => None
      case Some(k) => Some(k + 1)
  }

  /** The pattern FirstMatching names is the first that matches: none before
      it does, and when it names none, no pattern of the list matches. */
  lemma {:induction false} FirstMatchingSpec(patterns: seq<Pattern>, s: string)
    ensures FirstMatching(patterns, s).Some? ==>
              forall j :: 0 <= j < FirstMatching(patterns, s).value ==> Search(patterns[j], s).None?
    ensures FirstMatching(patterns, s).None? ==>
              forall j :: 0 <= j < |patterns| ==> Search(patterns[j], s).None?
  {
    if |patterns| > 0 && Search(patterns[0], s).None? {
      var rest := patterns[1..];
      FirstMatchingSpec(rest, s);
      assert forall j :: 0 <= j < |rest| ==> rest[j] == patterns[j + 1];
    }
  }

  /** The value extraction stores for one slot, if any: the keyword must occur
      in the lowercased text and some pattern must match; the group captured by
      the first matching pattern is stored with its commas removed. */
  function SlotValue(keyword: string, patterns: seq<Pattern>, lower: string): (r: Option<string>)
    ensures r.Some? ==> Contains(lower, keyword) && ',' !in r.value
  {
    if !Contains(lower, keyword) then None
    else
      match FirstMatching(patterns, lower)
      case None => None
      case Some(k) => Some(RemoveAll(Search(patterns[k], lower).value, ','))
  }

  function OrderNumber(lower: string): (r: Option<string>)
    ensures r.Some? ==> Contains(lower, "order") && ',' !in r.value
  {
    SlotValue("order", OrderPatterns, lower)
  }

  function CardInfo(lower: string): (r: Option<string>)
    ensures r.Some? ==> Contains(lower, "card ending") && ',' !in r.value
  {
    SlotValue("card ending", CardPatterns, lower)
  }

  function Store(slots: Slots, key: string, v: Option<string>): Slots {
    if v.Some? then slots[key := v.value] else slots
  }

  /** The slot map extract_slots_tool returns: a copy of the current slots in
      which at most the order number and the card are (re)set. */
  function ExtractSlots(userInput: string, currentSlots: Slots): (r: Slots)
    ensures currentSlots.Keys <= r.Keys <= currentSlots.Keys + {OrderKey, CardKey}
    ensures forall k :: k in currentSlots && k != OrderKey && k != CardKey ==> r[k] == currentSlots[k]
  {
    var lower := LowerStr(userInput);
    Store(Store(currentSlots, OrderKey, OrderNumber(lower)), CardKey, CardInfo(lower))
  }

  /** The first pattern that matches is the one FirstMatching names. */
  lemma {:induction false} FirstMatchingAt(patterns: seq<Pattern>, s: string, k: nat)
    requires k < |patterns| && Search(patterns[k], s).Some?
    requires forall j :: 0 <= j < k ==> Search(patterns[j], s).None?
    ensures FirstMatching(patterns, s) == Some(k)
    decreases k
  {
    if k > 0 {
      assert Search(patterns[0], s).None?;
      var rest := patterns[1..];
      assert rest[k - 1] == patterns[k];
      assert forall j :: 0 <= j < k - 1 ==> rest[j] == patterns[j + 1];
      FirstMatchingAt(rest, s, k - 1);
    }
  }

  /** When no pattern matches, FirstMatching finds none. */
  lemma {:induction false} FirstMatchingNone(patterns: seq<Pattern>, s: string)
    requires forall j :: 0 <= j < |patterns| ==> Search(patterns[j], s).None?
    ensures FirstMatching(patterns, s).None?
    decreases |patterns|
  {
    if |patterns| > 0 {
      assert Search(patterns[0], s).None?;
      var rest := patterns[1..];
      assert forall j :: 0 <= j < |rest| ==> rest[j] == patterns[j + 1];
      FirstMatchingNone(rest, s);
    }
  }

  /** One keyword's pass of extract_slots_tool: when the keyword occurs, the
      patterns are tried in order and the first capture, commas removed, is
      stored under key; the loop stops at the first match. */
  method ExtractInto(slots: Slots, key: string, keyword: string, patterns: seq<Pattern>, lower: string)
    returns (out: Slots)
    ensures out == Store(slots, key, SlotValue(keyword, patterns, lower))
  {
    out := slots;
    if Contains(lower, keyword) {
      for k := 0 to |patterns|
        invariant out == slots
        invariant forall j :: 0 <= j < k ==> Search(patterns[j], lower).None?
      {
        var m := Search(patterns[k], lower);
        if m.Some? {
          out := out[key := RemoveAll(m.value, ',')];
          FirstMatchingAt(patterns, lower, k);
          assert SlotValue(keyword, patterns, lower) == Some(RemoveAll(m.value, ','));
          return;
        }
      }
      FirstMatchingNone(patterns, lower);
    }
  }

  /** extract_slots_tool: copies the slots, then for each keyword present tries
      its patterns in order and stores the first capture, commas removed. */
  method ExtractSlotsTool(userInput: string, currentSlots: Slots) returns (r: ToolResult)
    ensures r == ToolResult(true, SlotsData(ExtractSlots(userInput, currentSlots)), None)
  {
    var userLower := LowerStr(userInput);
    var slots := ExtractInto(currentSlots, OrderKey, "order", OrderPatterns, userLower);
    slots := ExtractInto(slots, CardKey, "card ending", CardPatterns, userLower);
    r := ToolResult(true, SlotsData(slots), None);
  }

  // ---------------------------------------------------------------------------
  // Properties of slot extraction

  /** Without the word "order" in the text, the order number is left as it was
      (kept, or still absent); likewise the card without "card ending". */
  lemma ExtractKeepsSlotsWithoutKeyword(userInput: string, slots: Slots)
    ensures !Contains(LowerStr(userInput), "order") ==>
              (OrderKey in ExtractSlots(userInput, slots) <==> OrderKey in slots)
              && (OrderKey in slots ==> ExtractSlots(userInput, slots)[OrderKey] == slots[OrderKey])
    ensures !Contains(LowerStr(userInput), "card ending") ==>
              (CardKey in ExtractSlots(userInput, slots) <==> CardKey in slots)
              && (CardKey in slots ==> ExtractSlots(userInput, slots)[CardKey] == slots[CardKey])
  {
  }

  /** A stored order number is non-empty, starts with a digit and holds only
      digits and hyphens (no comma). */
  lemma OrderNumberClean(lower: string)
    ensures OrderNumber(lower).Some? ==>
              var v := OrderNumber(lower).value;
              |v| > 0 && IsDigit(v[0]) && ',' !in v && forall c :: c in v ==> IsDigit(c) || c == '-'
  {
    if OrderNumber(lower).Some? {
      var k := FirstMatching(OrderPatterns, lower).value;
      var p := OrderPatterns[k];
      var g := Search(p, lower).value;
      assert p.group == Grouped(true) || p.group == Digits;
      SearchCapture(p, lower);
      RemoveAllChars(g, ',');
      assert OrderNumber(lower).value == RemoveAll(g, ',');
      assert g[0] in g && g[0] != ',';
      assert RemoveAll(g, ',') == [g[0]] + RemoveAll(g[1..], ',');
    }
  }

  /** A stored card is non-empty and holds only digits. */
  lemma CardInfoClean(lower: string)
    ensures CardInfo(lower).Some? ==>
              var v := CardInfo(lower).value;
              |v| > 0 && forall c :: c in v ==> IsDigit(c)
  {
    if CardInfo(lower).Some? {
      var k := FirstMatching(CardPatterns, lower).value;
      var p := CardPatterns[k];
      var g := Search(p, lower).value;
      assert p.group == Grouped(false) || p.group == FourDigits;
      SearchCapture(p, lower);
      RemoveAllChars(g, ',');
      assert CardInfo(lower).value == RemoveAll(g, ',');
      assert g[0] in g && g[0] != ',';
    }
  }

  /** Running extraction again on its own output with the same text changes
      nothing. */
  lemma ExtractIdempotent(userInput: string, slots: Slots)
    ensures ExtractSlots(userInput, ExtractSlots(userInput, slots)) == ExtractSlots(userInput, slots)
  {
  }

  /** Two extractions of the same text agree on both extracted slots whatever
      the maps they start from, as soon as the text supplies a value. */
  lemma ExtractedValueIndependentOfSlots(userInput: string, a: Slots, b: Slots)
    ensures OrderNumber(LowerStr(userInput)).Some? ==>
              ExtractSlots(userInput, a)[OrderKey] == ExtractSlots(userInput, b)[OrderKey]
    ensures CardInfo(LowerStr(userInput)).Some? ==>
              ExtractSlots(userInput, a)[CardKey] == ExtractSlots(userInput, b)[CardKey]
  {
  }

  lemma {:induction false} MatchSeqConcat(a: seq<Atom>, b: seq<Atom>, s: string, i: nat)
    requires i <= |s|
    ensures MatchSeq(a + b, s, i) ==
              match MatchSeq(a, s, i)
              case None => None
              case Some(j) => MatchSeq(b, s, j)
    decreases |a|
  {
    if |a| == 0 {
      assert a + b == b;
    } else {
      assert (a + b)[0] == a[0];
      assert (a + b)[1..] == a[1..] + b;
      match MatchAtom(a[0], s, i)
      case None =>
      case Some(j) => MatchSeqConcat(a[1..], b, s, j);
    }
  }

  /** Wherever `order\s+(\d+)` matches, `order\s+(\d{1,3}...)` matches too. */
  lemma OrderDigitsShadowed(s: string)
    ensures Search(OrderDigits, s).Some? ==> Search(OrderGrouped, s).Some?
  {
    if Search(OrderDigits, s).Some? {
      var j := LeftmostFrom(OrderDigits, s, 0).value;
      assert MatchAt(OrderDigits, s, j).Some?;
      assert OrderGrouped.prefix == OrderDigits.prefix;
      var q := MatchSeq(OrderDigits.prefix, s, j).value;
      assert MatchAtom(Digits, s, q).Some?;
      assert MatchAtom(Grouped(true), s, q).Some?;
      MatchImpliesSearch(OrderGrouped, s, j);
    }
  }

  /** Wherever `card\s+ending\s+(\d{4})` matches, the first card pattern does. */
  lemma CardFourDigitsShadowed(s: string)
    ensures Search(CardFourDigits, s).Some? ==> Search(CardGrouped, s).Some?
  {
    if Search(CardFourDigits, s).Some? {
      var j := LeftmostFrom(CardFourDigits, s, 0).value;
      assert MatchAt(CardFourDigits, s, j).Some?;
      assert CardGrouped.prefix == CardFourDigits.prefix;
      var q := MatchSeq(CardFourDigits.prefix, s, j).value;
      assert MatchAtom(FourDigits, s, q).Some?;
      assert Run(Digit, s, q) > 0;
      assert MatchAtom(Grouped(false), s, q).Some?;
      MatchImpliesSearch(CardGrouped, s, j);
    }
  }

  /** Wherever `my\s+order\s+number\s+is\s+(\d+)` matches, so does
      `order\s+number\s+is\s+(\d+)`, a few characters further on. */
  lemma MyOrderNumberIsShadowed(s: string)
    ensures Search(MyOrderNumberIs, s).Some? ==> Search(OrderNumberIs, s).Some?
  {
    if Search(MyOrderNumberIs, s).Some? {
      var j := LeftmostFrom(MyOrderNumberIs, s, 0).value;
      assert MatchAt(MyOrderNumberIs, s, j).Some?;
      var head := [Word("my"), Spaces];
      assert MyOrderNumberIs.prefix == head + OrderNumberIs.prefix;
      MatchSeqConcat(head, OrderNumberIs.prefix, s, j);
      var q := MatchSeq(head, s, j).value;
      assert MatchSeq(OrderNumberIs.prefix, s, q) == MatchSeq(MyOrderNumberIs.prefix, s, j);
      assert MatchAt(OrderNumberIs, s, q).Some?;
      MatchImpliesSearch(OrderNumberIs, s, q);
    }
  }

  /** Three patterns of the lists never decide a slot: `order\s+(\d+)` is
      shadowed by the first order pattern, `my\s+order\s+number\s+is\s+(\d+)`
      by `order\s+number\s+is\s+(\d+)`, and `card\s+ending\s+(\d{4})` by the
      first card pattern, because wherever they match, an earlier one does. */
  lemma OrderDigitsNeverDecides(s: string)
    ensures FirstMatching(OrderPatterns, s) != Some(1)
  {
    FirstMatchingSpec(OrderPatterns, s);
    if FirstMatching(OrderPatterns, s) == Some(1) {
      assert OrderPatterns[0] == OrderGrouped && OrderPatterns[1] == OrderDigits;
      OrderDigitsShadowed(s);
    }
  }

  lemma MyOrderNumberIsNeverDecides(s: string)
    ensures FirstMatching(OrderPatterns, s) != Some(4)
  {
    FirstMatchingSpec(OrderPatterns, s);
    if FirstMatching(OrderPatterns, s) == Some(4) {
      assert OrderPatterns[3] == OrderNumberIs && OrderPatterns[4] == MyOrderNumberIs;
      MyOrderNumberIsShadowed(s);
    }
  }

  lemma CardFourDigitsNeverDecides(s: string)
    ensures FirstMatching(CardPatterns, s) != Some(1)
  {
    FirstMatchingSpec(CardPatterns, s);
    if FirstMatching(CardPatterns, s) == Some(1) {
      assert CardPatterns[0] == CardGrouped && CardPatterns[1] == CardFourDigits;
      CardFourDigitsShadowed(s);
    }
  }

  /** A keyword followed by a space and more text is found in that text. */
  lemma KeywordAtStart(keyword: string, d: string)
    ensures Contains(keyword + " " + d, keyword)
  {
    assert keyword + " " + d == keyword + (" " + d);
    ContainsAtStart(keyword, " " + d);
  }

  /** Where the first order pattern matches "order " followed by four
      digits, whatever comes after them. */
  lemma OrderGroupedOnDigits(d: string)
    requires |d| >= 4 && AllDigits(d[..4])
    ensures MatchAt(OrderGrouped, "order " + d, 0) == Some(d[..3])
  {
    var s := "order " + d;
    assert s[..5] == "order" && s[5] == ' ';
    assert forall j :: 6 <= j < |s| ==> s[j] == d[j - 6];
    assert forall j :: 0 <= j < 4 ==> d[..4][j] == d[j];
    assert MatchSeq([Word("order"), Spaces], s, 0) == Some(6) by {
      assert MatchAtom(Word("order"), s, 0) == Some(5);
      assert Run(Space, s, 6) == 0;
      assert Run(Space, s, 5) == 1;
      assert MatchSeq([Word("order"), Spaces][1..][1..], s, 6) == Some(6);
    }
    assert OrderGrouped.prefix == [Word("order"), Spaces];
    GroupedOnDigits(true, s, 6);
    assert s[6..9] == d[..3];
  }

  /** When the keyword occurs and the first pattern of the list matches, the
      value stored is that pattern's capture, commas removed. */
  lemma SlotValueFirstPattern(keyword: string, patterns: seq<Pattern>, lower: string)
    requires |patterns| > 0 && Contains(lower, keyword) && Search(patterns[0], lower).Some?
    ensures SlotValue(keyword, patterns, lower) == Some(RemoveAll(Search(patterns[0], lower).value, ','))
  {
    FirstMatchingAt(patterns, lower, 0);
  }

  /** `re.search` of the first order pattern on "order " and four digits
      after text where it does not match finds the first three digits. */
  lemma OrderGroupedAfter(p: string, d: string)
    requires |d| >= 4 && AllDigits(d[..4])
    requires forall j :: 0 <= j < |p| ==> MatchAt(OrderGrouped, p + ("order " + d), j).None?
    ensures Search(OrderGrouped, p + ("order " + d)) == Some(d[..3])
  {
    OrderGroupedOnDigits(d);
    MatchAtShift(OrderGrouped, p, "order " + d, 0);
    SearchFirstMatch(OrderGrouped, p + ("order " + d), |p|);
  }

  /** A keyword followed by a space and more text is found wherever it
      stands. */
  lemma KeywordInside(p: string, keyword: string, d: string)
    ensures Contains(p + (keyword + " " + d), keyword)
  {
    assert p + (keyword + " " + d) == p + keyword + (" " + d);
    ContainsMiddle(p, keyword, " " + d);
  }

  /** A capture of three digits is stored as it stands. */
  lemma OrderValueOfCapture(s: string, d: string)
    requires |d| >= 4 && AllDigits(d[..4])
    requires Search(OrderGrouped, s) == Some(d[..3]) && Contains(s, "order")
    ensures OrderNumber(s) == Some(d[..3])
  {
    assert OrderPatterns[0] == OrderGrouped;
    SlotValueFirstPattern("order", OrderPatterns, s);
    assert forall k :: 0 <= k < 3 ==> d[..3][k] == d[..4][k];
    RemoveAllAbsent(d[..3], ',');
  }

  /** An order number of four or more digits with no separator is cut to its
      first three digits: `\d{1,3}` takes three, and `(?:,\d{3})*` and
      `(?:-\d+)?` then match nothing, since a digit follows. This holds
      whatever text comes before "order " (as long as the first order
      pattern does not match earlier) and whatever follows the digits; so
      "order 12345" stores "123". */
  lemma LongOrderNumberTruncated(p: string, d: string)
    requires |d| >= 4 && AllDigits(d[..4])
    requires forall j :: 0 <= j < |p| ==> MatchAt(OrderGrouped, p + ("order " + d), j).None?
    ensures OrderNumber(p + ("order " + d)) == Some(d[..3])
  {
    OrderGroupedAfter(p, d);
    KeywordInside(p, "order", d);
    assert "order" + " " + d == "order " + d;
    OrderValueOfCapture(p + ("order " + d), d);
  }

  /** The atoms before the card group consume "card ending " exactly when a
      digit follows. */
  lemma CardPrefixOnDigits(d: string)
    requires |d| > 0 && IsDigit(d[0])
    ensures MatchSeq(CardGrouped.prefix, "card ending " + d, 0) == Some(12)
  {
    var s := "card ending " + d;
    var p := [Word("card"), Spaces, Word("ending"), Spaces];
    assert CardGrouped.prefix == p;
    CardEndingOnDigits(d);
    assert p[1..][1..] == [Word("ending"), Spaces];
    assert MatchAtom(Spaces, s, 4) == Some(5) by {
      assert s[4] == ' ' && s[5] == 'e';
      assert Run(Space, s, 5) == 0;
    }
    assert MatchAtom(Word("card"), s, 0) == Some(4) by {
      assert s[0..4] == "card";
    }
  }

  lemma CardEndingOnDigits(d: string)
    requires |d| > 0 && IsDigit(d[0])
    ensures MatchSeq([Word("ending"), Spaces], "card ending " + d, 5) == Some(12)
  {
    var s := "card ending " + d;
    assert MatchAtom(Spaces, s, 11) == Some(12) by {
      assert s[11] == ' ' && s[12] == d[0];
      assert Run(Space, s, 12) == 0;
    }
    assert MatchAtom(Word("ending"), s, 5) == Some(11) by {
      assert s[5..11] == "ending";
    }
    assert [Word("ending"), Spaces][1..] == [Spaces];
  }

  /** Where the first card pattern matches "card ending " followed by four
      digits, whatever comes after them. */
  lemma CardGroupedOnDigits(d: string)
    requires |d| >= 4 && AllDigits(d[..4])
    ensures MatchAt(CardGrouped, "card ending " + d, 0) == Some(d[..3])
  {
    var s := "card ending " + d;
    assert d[0] == d[..4][0];
    CardPrefixOnDigits(d);
    assert forall j :: 12 <= j < |s| ==> s[j] == d[j - 12];
    assert forall j :: 0 <= j < 4 ==> d[..4][j] == d[j];
    GroupedOnDigits(false, s, 12);
    assert s[12..15] == d[..3];
  }

  lemma CardGroupedAfter(p: string, d: string)
    requires |d| >= 4 && AllDigits(d[..4])
    requires forall j :: 0 <= j < |p| ==> MatchAt(CardGrouped, p + ("card ending " + d), j).None?
    ensures Search(CardGrouped, p + ("card ending " + d)) == Some(d[..3])
  {
    CardGroupedOnDigits(d);
    MatchAtShift(CardGrouped, p, "card ending " + d, 0);
    SearchFirstMatch(CardGrouped, p + ("card ending " + d), |p|);
  }

  /** A capture of three digits is stored as it stands. */
  lemma CardValueOfCapture(s: string, d: string)
    requires |d| >= 4 && AllDigits(d[..4])
    requires Search(CardGrouped, s) == Some(d[..3]) && Contains(s, "card ending")
    ensures CardInfo(s) == Some(d[..3])
  {
    assert CardPatterns[0] == CardGrouped;
    SlotValueFirstPattern("card ending", CardPatterns, s);
    assert forall k :: 0 <= k < 3 ==> d[..3][k] == d[..4][k];
    RemoveAllAbsent(d[..3], ',');
  }

  /** The same for a card: "card ending 1234" stores "123", not the four
      digits the second card pattern would have taken, whatever comes before
      "card ending " (as long as the first card pattern does not match
      earlier) and whatever follows the digits. */
  lemma LongCardNumberTruncated(p: string, d: string)
    requires |d| >= 4 && AllDigits(d[..4])
    requires forall j :: 0 <= j < |p| ==> MatchAt(CardGrouped, p + ("card ending " + d), j).None?
    ensures CardInfo(p + ("card ending " + d)) == Some(d[..3])
  {
    CardGroupedAfter(p, d);
    KeywordInside(p, "card ending", d);
    assert "card ending" + " " + d == "card ending " + d;
    CardValueOfCapture(p + ("card ending " + d), d);
  }

  /** The lowercased sentence of the refund example, and where its parts
      lie. */
  const RefundSentence: string := "M" + RefundSentenceLower[1..]
  const RefundSentenceLower: string := "my " + ("card ending " + "1234 was charged twice")

  lemma RefundSentenceLowered()
    ensures LowerStr(RefundSentence) == RefundSentenceLower
  {
    var s := RefundSentenceLower;
    assert NoUpper("my ");
    assert NoUpper("card ending ");
    assert NoUpper("1234 was charged twice");
    assert NoUpper(s);
    assert LowerStr(RefundSentence)[0] == s[0];
  }

  /** The first card pattern cannot start inside "my ". */
  lemma RefundSentenceNoEarlyCard()
    ensures forall j :: 0 <= j < 3 ==> MatchAt(CardGrouped, RefundSentenceLower, j).None?
  {
    var s := RefundSentenceLower;
    forall j | 0 <= j < 3
      ensures MatchAt(CardGrouped, s, j).None?
    {
      assert s[j] != 'c';
      assert s[j..j + 4][0] == s[j];
      assert CardGrouped.prefix[0] == Word("card");
    }
  }

  /** The first card pattern keeps three of the four digits. */
  lemma RefundSentenceCard()
    ensures CardInfo(RefundSentenceLower) == Some("123")
  {
    var d := "1234 was charged twice";
    RefundSentenceNoEarlyCard();
    assert d[..4] == "1234" && d[..3] == "123";
    LongCardNumberTruncated("my ", d);
  }

  /** The sentence has no "o", so no order number. */
  lemma RefundSentenceNoOrder()
    ensures OrderNumber(RefundSentenceLower).None?
  {
    assert 'o' !in "my ";
    assert 'o' !in "card ending ";
    assert 'o' !in "1234 was charged twice";
    NotContainsMissingChar(RefundSentenceLower, "order", 'o');
  }

  /** "My card ending 1234 was charged twice", said with no slot known yet,
      stores the card as "123" and no order number. */
  lemma CardEndingSentence()
    ensures ExtractSlots(RefundSentence, map[]) == map[CardKey := "123"]
  {
    RefundSentenceLowered();
    RefundSentenceCard();
    RefundSentenceNoOrder();
  }

  // ---------------------------------------------------------------------------
  // Policy decision

  const ConfirmAddressChange := "CONFIRM_ADDRESS_CHANGE"
  const AskOrderNumber := "ASK_ORDER_NUMBER"
  const ConfirmReturn := "CONFIRM_RETURN"
  const ProcessRefund := "PROCESS_REFUND"
  const AskCardInfo := "ASK_CARD_INFO"
  const AskClarify := "ASK_CLARIFY"

  /** The closed vocabulary of bot actions. */
  const Actions: set<string> :=
    {ConfirmAddressChange, AskOrderNumber, ConfirmReturn, ProcessRefund, AskCardInfo, AskClarify}

  const ChangeShippingAddress := "Change shipping address"
  const ReturnDamagedItem := "Return a damaged item"
  const RefundDuplicateCharge := "Request refund for duplicate charge"

  function Decided(action: string): ToolResult {
    ToolResult(true, ActionData(action), None)
  }

  /** policy_decision_tool: the next action from the goal and the slots
      gathered so far. The user text is not looked at. */
  function PolicyDecision(goal: string, userInput: string, availableSlots: Slots): (r: ToolResult)
    ensures r.success && r.error.None? && r.data.ActionData?
    ensures r.data.action in Actions
  {
    if goal == ChangeShippingAddress then
      if OrderKey in availableSlots then Decided(ConfirmAddressChange) else Decided(AskOrderNumber)
    else if goal == ReturnDamagedItem then
      if OrderKey in availableSlots then Decided(ConfirmReturn) else Decided(AskOrderNumber)
    else if goal == RefundDuplicateCharge then
      if CardKey in availableSlots then Decided(ProcessRefund) else Decided(AskCardInfo)
    else
      Decided(AskClarify)
  }

  /** One row of the decision table: the goal, the slot it needs, and the
      action when that slot is present or absent. */
  datatype PolicyRule = PolicyRule(goal: string, needs: string, present: string, absent: string)

  const PolicyTable: seq<PolicyRule> := [
    PolicyRule(ChangeShippingAddress, OrderKey, ConfirmAddressChange, AskOrderNumber),
    PolicyRule(ReturnDamagedItem, OrderKey, ConfirmReturn, AskOrderNumber),
    PolicyRule(RefundDuplicateCharge, CardKey, ProcessRefund, AskCardInfo)
  ]

  /** The action the table gives: the first row for the goal decides, and a
      goal with no row asks for clarification. */
  function TableAction(table: seq<PolicyRule>, goal: string, slots: Slots): (r: string)
    ensures (forall k :: 0 <= k < |table| ==> table[k].goal != goal) ==> r == AskClarify
    ensures forall k :: FirstRowFor(table, goal, k) ==> r == RowAction(table[k], slots)
  {
    if |table| == 0 then AskClarify
    else if table[0].goal == goal then RowAction(table[0], slots)
    else
      var r := TableAction(table[1..], goal, slots);
      assert forall k :: FirstRowFor(table, goal, k) ==> FirstRowFor(table[1..], goal, k - 1);
      r
  }

  /** Row k is the first row of the table for the goal. */
  predicate FirstRowFor(table: seq<PolicyRule>, goal: string, k: int) {
    0 <= k < |table| && table[k].goal == goal && forall j :: 0 <= j < k ==> table[j].goal != goal
  }

  /** The action a row gives for the slots at hand. */
  function RowAction(row: PolicyRule, slots: Slots): string {
    if row.needs in slots then row.present else row.absent
  }

  /** The decision follows the table, by exact goal match. */
  lemma PolicyFollowsTable(goal: string, userInput: string, slots: Slots)
    ensures PolicyDecision(goal, userInput, slots).data.action == TableAction(PolicyTable, goal, slots)
  {
    var rows := PolicyTable;
    assert rows[0] == PolicyRule(ChangeShippingAddress, OrderKey, ConfirmAddressChange, AskOrderNumber);
    assert rows[1..][0] == PolicyRule(ReturnDamagedItem, OrderKey, ConfirmReturn, AskOrderNumber);
    assert rows[1..][1..][0] == PolicyRule(RefundDuplicateCharge, CardKey, ProcessRefund, AskCardInfo);
    assert rows[1..][1..][1..] == [];
    if goal != ChangeShippingAddress {
      assert TableAction(rows, goal, slots) == TableAction(rows[1..], goal, slots);
      if goal != ReturnDamagedItem {
        assert TableAction(rows[1..], goal, slots) == TableAction(rows[1..][1..], goal, slots);
        if goal != RefundDuplicateCharge {
          assert TableAction(rows[1..][1..], goal, slots) == TableAction(rows[1..][1..][1..], goal, slots);
        }
      }
    }
  }

  /** The user text plays no part in the decision. */
  lemma PolicyIgnoresUserText(goal: string, u1: string, u2: string, slots: Slots)
    ensures PolicyDecision(goal, u1, slots) == PolicyDecision(goal, u2, slots)
  {
  }

  /** A confirming action is only chosen once the slot it relies on is known,
      and for a known goal the bot asks for that slot exactly when it is
      missing. */
  lemma PolicyConfirmsOnlyWithSlot(goal: string, userInput: string, slots: Slots)
    ensures var a := PolicyDecision(goal, userInput, slots).data.action;
            && (a == ConfirmAddressChange || a == ConfirmReturn ==> OrderKey in slots)
            && (a == ProcessRefund ==> CardKey in slots)
            && (goal == ChangeShippingAddress || goal == ReturnDamagedItem ==>
                  (a == AskOrderNumber <==> OrderKey !in slots))
            && (goal == RefundDuplicateCharge ==> (a == AskCardInfo <==> CardKey !in slots))
            && ((goal != ChangeShippingAddress && goal != ReturnDamagedItem && goal != RefundDuplicateCharge)
                ==> a == AskClarify)
  {
  }

  // ---------------------------------------------------------------------------
  // Response generation

  /** The entries of the template table: the text to say, with the slot
      value it is filled with. */
  datatype Template =
    | AddressChanged(order: string)
    | ReturnStarted(order: string)
    | RefundProcessed(card: string)
    | AskOrder
    | AskCard
    | Clarify
    | NotSure   // the reply to an action the table does not know

  /** The text of each template. */
  function Render(t: Template): string {
    match t
    case AddressChanged(order) =>
      "Thank you! I have updated your shipping address for order " + order + ". The change has been confirmed."
    case ReturnStarted(order) =>
      "Thank you! I have initiated the return for order " + order
      + ". I've emailed you a return label and you should receive it shortly."
    case RefundProcessed(card) =>
      "Thank you! I have processed your refund for the duplicate charge ending in " + card
      + ". You should see the credit within 3-5 business days."
    case AskOrder => "I can help you with that. Could you please provide your order number?"
    case AskCard => "I can help you with that. Could you please provide the last four digits of your card?"
    case Clarify => "I'm not sure I understand. Could you please clarify what you'd like help with?"
    case NotSure => "I'm not sure how to help with that."
  }

  /** The template table, with the slot values filled in ("that order" and
      "your card" stand in for a missing slot). */
  function Responses(slots: Slots): map<string, Template> {
    map[
      ConfirmAddressChange := AddressChanged(Get(slots, OrderKey, "that order")),
      ConfirmReturn := ReturnStarted(Get(slots, OrderKey, "that order")),
      ProcessRefund := RefundProcessed(Get(slots, CardKey, "your card")),
      AskOrderNumber := AskOrder,
      AskCardInfo := AskCard,
      AskClarify := Clarify
    ]
  }

  /** The template table has exactly one entry per known action. */
  lemma ResponsesCoverActions(slots: Slots)
    ensures Responses(slots).Keys == Actions
  {
  }

  /** `responses.get(action, ...)`: the template for an action. */
  function TemplateFor(action: string, slots: Slots): (r: Template)
  {
    Get(Responses(slots), action, NotSure)
  }

  /** generate_response_tool: the utterance for an action; the action itself
      is echoed back. */
  function GenerateResponse(action: string, slots: Slots): (r: ToolResult)
    ensures r.success && r.error.None? && r.data.ReplyData?
    ensures r.data.action == action
  {
    ToolResult(true, ReplyData(action, Render(TemplateFor(action, slots))), None)
  }

  /** Which template each action gets: the six known actions their own, with
      the slot value or its stand-in, and every other action the "not sure"
      reply. */
  lemma TemplateForAction(action: string, slots: Slots)
    ensures var t := TemplateFor(action, slots);
            && (action == ConfirmAddressChange ==> t == AddressChanged(Get(slots, OrderKey, "that order")))
            && (action == ConfirmReturn ==> t == ReturnStarted(Get(slots, OrderKey, "that order")))
            && (action == ProcessRefund ==> t == RefundProcessed(Get(slots, CardKey, "your card")))
            && (action == AskOrderNumber ==> t == AskOrder)
            && (action == AskCardInfo ==> t == AskCard)
            && (action == AskClarify ==> t == Clarify)
            && (action !in Actions ==> t == NotSure)
  {
    ResponsesCoverActions(slots);
  }

  /** The confirmations carry the order they were given. */
  lemma ConfirmationsMentionOrder(order: string)
    ensures Contains(Render(AddressChanged(order)), order)
    ensures Contains(Render(ReturnStarted(order)), order)
  {
    ContainsMiddle("Thank you! I have updated your shipping address for order ", order,
                   ". The change has been confirmed.");
    ContainsMiddle("Thank you! I have initiated the return for order ", order,
                   ". I've emailed you a return label and you should receive it shortly.");
  }

  /** The refund carries the card and the word "refund". */
  lemma RefundMentionsCard(card: string)
    ensures Contains(Render(RefundProcessed(card)), card)
  {
    ContainsMiddle("Thank you! I have processed your refund for the duplicate charge ending in ", card,
                   ". You should see the credit within 3-5 business days.");
  }

  lemma RefundSplit(card: string)
    ensures Render(RefundProcessed(card)) == "Thank you! I have processed your " + "refund"
              + (" for the duplicate charge ending in " + card + ". You should see the credit within 3-5 business days.")
  {
    assert "Thank you! I have processed your refund for the duplicate charge ending in "
        == "Thank you! I have processed your " + "refund" + " for the duplicate charge ending in ";
  }

  lemma RefundMentionsRefund(card: string)
    ensures Contains(Render(RefundProcessed(card)), "refund")
  {
    RefundSplit(card);
    ContainsMiddle("Thank you! I have processed your ", "refund",
                   " for the duplicate charge ending in " + card + ". You should see the credit within 3-5 business days.");
  }

  /** The request for an order number says "order number". */
  lemma AskOrderMentionsOrderNumber()
    ensures Contains(Render(AskOrder), "order number")
  {
    assert Render(AskOrder) == "I can help you with that. Could you please provide your " + "order number" + "?";
    ContainsMiddle("I can help you with that. Could you please provide your ", "order number", "?");
  }

  /** Confirmations name the order (or "that order" when none is known), the
      refund names the card (or "your card"), and the request for an order
      number says "order number". */
  lemma ReplyMentionsSlots(action: string, slots: Slots)
    ensures var u := GenerateResponse(action, slots).data.utterance;
            && (action == ConfirmAddressChange || action == ConfirmReturn ==>
                  Contains(u, Get(slots, OrderKey, "that order")))
            && (action == ProcessRefund ==>
                  Contains(u, Get(slots, CardKey, "your card")) && Contains(u, "refund"))
            && (action == AskOrderNumber ==> Contains(u, "order number"))
  {
    TemplateForAction(action, slots);
    ConfirmationsMentionOrder(Get(slots, OrderKey, "that order"));
    RefundMentionsCard(Get(slots, CardKey, "your card"));
    RefundMentionsRefund(Get(slots, CardKey, "your card"));
    AskOrderMentionsOrderNumber();
  }

  /** When the action comes from the policy, the reply never needs a
      placeholder: a confirmation carries the stored order number and the
      refund the stored card. */
  lemma PolicyReplyUsesStoredSlot(goal: string, userInput: string, slots: Slots)
    ensures var a := PolicyDecision(goal, userInput, slots).data.action;
            var u := GenerateResponse(a, slots).data.utterance;
            && (a == ConfirmAddressChange || a == ConfirmReturn ==> OrderKey in slots && Contains(u, slots[OrderKey]))
            && (a == ProcessRefund ==> CardKey in slots && Contains(u, slots[CardKey]))
  {
    PolicyConfirmsOnlyWithSlot(goal, userInput, slots);
    ReplyMentionsSlots(PolicyDecision(goal, userInput, slots).data.action, slots);
  }
}

/**
 * The voice skill: turn the requested number of headlines into a count
 * of 3, 5 or 10, ask the read path for that many of the latest threads
 * of a category, and speak and print what comes back.
 */
module AlexaSkill {
  import opened Wrappers
  import opened Decimal
  import opened Strings
  import R = GetNewpunchInfo

  const MaxHeadlineCount: int := 10
  const DefaultHeadlineCount: int := 3

  /** Spoken position of the i-th headline; the eighth entry really is "Eight". */
  const OrdinalStrings: seq<string> :=
    ["First", "Second", "Third", "Fourth", "Fifth", "Sixth", "Seventh", "Eight", "Ninth", "Tenth"]

  /** A JavaScript number as the count logic sees it: an integer, or NaN from a failed parse. */
  datatype JsNumber = Num(n: int) | NaN

  /** A slot of the spoken request; its value is absent when the user did not fill it. */
  datatype Slot = Slot(value: Option<string>)

  datatype Intent = Intent(name: string, slots: map<string, Slot>)

  /** Opening the skill carries no intent; asking for something does. */
  datatype Request = LaunchRequest | IntentRequest(intent: Intent)

  // ---------------------------------------------------------------------
  // The count

  /**
   * A parsed count quantised to what the skill offers: the least offered
   * count at or above it, and ten for anything beyond ten.
   */
  function Clamp(c: int): (r: int)
    ensures r == 3 || r == 5 || r == 10
    ensures c == 3 || c == 5 ==> r == c
    ensures c <= 10 ==> c <= r && (c <= 3 ==> r <= 3) && (c <= 5 ==> r <= 5)
    ensures c > 10 ==> r == 10
  {
    if c < DefaultHeadlineCount then DefaultHeadlineCount
    else if c == 4 then 5
    else if c > 5 then MaxHeadlineCount
    else c
  }

  /** Asking for more never yields fewer. */
  lemma ClampMonotone(a: int, b: int)
    requires a <= b
    ensures Clamp(a) <= Clamp(b)
  {
  }

  /** Exactly the three offered counts are left alone, so clamping twice is clamping once. */
  lemma ClampFixedPoints(c: int)
    ensures Clamp(c) == c <==> c == 3 || c == 5 || c == 10
    ensures Clamp(Clamp(c)) == Clamp(c)
  {
  }

  /**
   * The count the slots ask for: the default without a `count` slot or
   * without a value in it (an empty value included), otherwise the
   * clamped decimal value; text that does not parse stays NaN, which no
   * comparison changes.
   */
  function CountFromSlots(slots: map<string, Slot>): (r: JsNumber)
    ensures "count" !in slots || slots["count"].value.None? || slots["count"].value.value == [] ==> r == Num(3)
    ensures r.Num? ==> r.n == 3 || r.n == 5 || r.n == 10
    ensures r.NaN? <==>
              && "count" in slots && slots["count"].value.Some? && slots["count"].value.value != []
              && ParseInt(slots["count"].value.value).None?
    ensures && "count" in slots && slots["count"].value.Some? && slots["count"].value.value != []
            && ParseInt(slots["count"].value.value).Some?
            ==> r == Num(Clamp(ParseInt(slots["count"].value.value).value))
  {
    if "count" !in slots then Num(DefaultHeadlineCount)
    else
      var value := slots["count"].value;
      if value.None? || value.value == [] then Num(DefaultHeadlineCount)
      else match ParseInt(value.value)
        case None => NaN
        case Some(c) => Num(Clamp(c))
  }

  /**
   * The count as the skill reads it: from the intent's slots. A launch
   * request has no intent, so the read throws before any slot is looked
   * at.
   */
  function GetHeadlineCountAsWritten(request: Request): (r: Result<JsNumber, string>)
    ensures r.Failure? <==> request.LaunchRequest?
    ensures r.Success? ==> r.value == CountFromSlots(request.intent.slots)
  {
    match request
    case LaunchRequest => Failure("TypeError: cannot read property 'slots' of undefined")
    case IntentRequest(intent) => Success(CountFromSlots(intent.slots))
  }

  /** The count with a launch request given the default, as the launch handling intends. */
  function GetHeadlineCount(request: Request): (r: JsNumber)
    ensures request.LaunchRequest? ==> r == Num(DefaultHeadlineCount)
    ensures request.IntentRequest? ==> r == CountFromSlots(request.intent.slots)
    ensures r.Num? ==> r.n == 3 || r.n == 5 || r.n == 10
  {
    match request
    case LaunchRequest => Num(DefaultHeadlineCount)
    case IntentRequest(intent) => CountFromSlots(intent.slots)
  }

  /** The intent a headlines handler answers to. */
  function IntentName(category: Category): string {
    match category
    case Sensationalist => "GetSensationalistHeadlines"
    case Polidicks => "GetPolidicksHeadlines"
  }

  /** A headlines handler takes a launch request, or a request for its own intent. */
  predicate CanHandle(category: Category, request: Request) {
    request.LaunchRequest? || request.intent.name == IntentName(category)
  }

  /**
   * Opening the skill reaches the sensationalist handler, which accepts
   * it and then cannot read a count from it, so the reply is the error
   * message; the corrected count gives the default instead.
   */
  lemma LaunchRequestFails()
    ensures CanHandle(Sensationalist, LaunchRequest)
    ensures GetHeadlineCountAsWritten(LaunchRequest).Failure?
    ensures GetHeadlineCount(LaunchRequest) == Num(DefaultHeadlineCount)
  {
  }

  // ---------------------------------------------------------------------
  // The headline lists

  /**
   * The reply of the read path once `JSON.parse` has read it: the array of
   * records it returns or, when that function throws, the error object
   * that `lambda.invoke` still resolves with, given by its field names in
   * order (`errorMessage`, `errorType`, a stack trace).
   */
  datatype Reply = Records(threads: seq<R.Thread>) | ErrorObject(fields: seq<string>)

  /** What `lambda.invoke` resolves with: a payload that parses into a reply, or text that does not. */
  datatype Payload = Parsed(reply: Reply) | Unparseable

  /** The reply `getHeadlines` returns: a payload that does not parse reads as an empty array. */
  function GetHeadlines(payload: Payload): Reply {
    match payload
    case Parsed(reply) => reply
    case Unparseable => Records([])
  }

  /** `threads.length` as the spoken text shows it; an object has no length. */
  function LengthText(reply: Reply): string {
    match reply
    case Records(threads) => NatToString(|threads|)
    case ErrorObject(_) => "undefined"
  }

  /**
   * The ordinal of position `i`; past the tenth, the lookup is `undefined`
   * and prints as such. Distinct positions get distinct words
   * (`OrdinalsDistinct`).
   */
  function Ordinal(i: nat): (word: string)
    ensures word == "undefined" <==> i >= |OrdinalStrings|
  {
    if i < |OrdinalStrings| then OrdinalStrings[i] else "undefined"
  }

  /** The ten spoken positions are told apart. */
  lemma OrdinalsDistinct(i: nat, j: nat)
    requires i < j < |OrdinalStrings|
    ensures Ordinal(i) != Ordinal(j)
  {
    var a, b := OrdinalStrings[i], OrdinalStrings[j];
    if |a| == |b| {
      // Same length: First, Third, Fifth, Sixth, Eight, Ninth, Tenth (5) or Second, Fourth (6).
      if a[0] == b[0] {
        assert a[1] != b[1] || a[2] != b[2];
      }
    }
  }

  /** `parseInt(key, 10) + 1` as it prints: a key that names no number gives NaN. */
  function KeyPlusOne(key: string): string {
    match ParseInt(key)
    case None => "NaN"
    case Some(v) => IntToString(v + 1)
  }

  /** An array position's key is its index in decimal, so the card numbers from 1. */
  lemma RecordNumber(i: nat)
    ensures KeyPlusOne(NatToString(i)) == NatToString(i + 1)
  {
    NatRoundTrip(i);
  }

  /**
   * One step of the loop over `Object.entries(threads)`: the ordinal looked
   * up by the key, the key plus one as printed, and the entry's `headline`.
   */
  datatype Entry = Entry(ordinal: string, number: string, headline: string)

  /**
   * The entries of a reply. An array gives one per record, keyed by its
   * index. An error object gives one per field: a field name is no index
   * of the ordinal table, and a field value has no `headline`.
   */
  function Entries(reply: Reply): (entries: seq<Entry>)
    ensures reply.Records? ==> |entries| == |reply.threads|
    ensures reply.ErrorObject? ==> |entries| == |reply.fields|
  {
    match reply
    case Records(threads) =>
      seq(|threads|, i requires 0 <= i < |threads| => Entry(Ordinal(i), KeyPlusOne(NatToString(i)), threads[i].headline))
    case ErrorObject(fields) =>
      seq(|fields|, i requires 0 <= i < |fields| => Entry("undefined", KeyPlusOne(fields[i]), "undefined"))
  }

  function SpokenEntry(e: Entry): string {
    " " + e.ordinal + " headline: " + e.headline + "."
  }

  function CardEntry(e: Entry): string {
    e.number + ". " + e.headline + "\n"
  }

  function SpokenEntries(entries: seq<Entry>): (parts: seq<string>)
    ensures |parts| == |entries|
    ensures forall i | 0 <= i < |entries| :: parts[i] == SpokenEntry(entries[i])
  {
    seq(|entries|, i requires 0 <= i < |entries| => SpokenEntry(entries[i]))
  }

  function CardEntries(entries: seq<Entry>): (parts: seq<string>)
    ensures |parts| == |entries|
    ensures forall i | 0 <= i < |entries| :: parts[i] == CardEntry(entries[i])
  {
    seq(|entries|, i requires 0 <= i < |entries| => CardEntry(entries[i]))
  }

  /** One more entry adds its text at the end. */
  lemma EntriesPush(entries: seq<Entry>, i: nat)
    requires i < |entries|
    ensures SpokenEntries(entries[..i + 1]) == SpokenEntries(entries[..i]) + [SpokenEntry(entries[i])]
    ensures CardEntries(entries[..i + 1]) == CardEntries(entries[..i]) + [CardEntry(entries[i])]
  {
  }

  lemma JoinPush(parts: seq<string>, last: string)
    ensures Join(parts + [last]) == Join(parts) + last
  {
    assert (parts + [last])[..|parts|] == parts;
  }

  /**
   * The spoken text and the card text for a reply: one entry per entry of
   * the reply, in order. An empty array gives two empty texts.
   */
  method GetHeadlineData(reply: Reply) returns (spokenString: string, cardString: string)
    ensures spokenString == Join(SpokenEntries(Entries(reply)))
    ensures cardString == Join(CardEntries(Entries(reply)))
    ensures reply == Records([]) ==> spokenString == [] && cardString == []
  {
    var entries := Entries(reply);
    spokenString := "";
    cardString := "";
    for i := 0 to |entries|
      invariant spokenString == Join(SpokenEntries(entries[..i]))
      invariant cardString == Join(CardEntries(entries[..i]))
    {
      EntriesPush(entries, i);
      JoinPush(SpokenEntries(entries[..i]), SpokenEntry(entries[i]));
      JoinPush(CardEntries(entries[..i]), CardEntry(entries[i]));
      spokenString := spokenString + SpokenEntry(entries[i]);
      cardString := cardString + CardEntry(entries[i]);
    }
    assert entries[..|entries|] == entries;
  }

  /** Each card entry ends the one line it occupies. */
  lemma CardEntryLine(e: Entry)
    requires '\n' !in e.number && '\n' !in e.headline
    ensures CountChar(CardEntry(e), '\n') == 1
  {
    CountCharAppend(e.number + ". " + e.headline, "\n", '\n');
    CountCharAppend(e.number + ". ", e.headline, '\n');
    CountCharAppend(e.number, ". ", '\n');
    assert ". "[..1] == "." && "."[..0] == "";
    assert "\n"[..0] == "";
    NoChar(e.number, '\n');
    NoChar(e.headline, '\n');
  }

  lemma {:induction false} NoChar(s: string, c: char)
    requires c !in s
    ensures CountChar(s, c) == 0
    decreases |s|
  {
    if s != [] {
      assert forall k | 0 <= k < |s| - 1 :: s[..|s| - 1][k] == s[k];
      NoChar(s[..|s| - 1], c);
    }
  }

  /** The card of entries with single-line numbers and headlines has one line per entry. */
  lemma {:induction false} EntryLineCount(entries: seq<Entry>)
    requires forall i | 0 <= i < |entries| :: '\n' !in entries[i].number && '\n' !in entries[i].headline
    ensures CountChar(Join(CardEntries(entries)), '\n') == |entries|
    decreases |entries|
  {
    if entries != [] {
      var n := |entries| - 1;
      assert entries[..n + 1] == entries;
      EntriesPush(entries, n);
      JoinPush(CardEntries(entries[..n]), CardEntry(entries[n]));
      CountCharAppend(Join(CardEntries(entries[..n])), CardEntry(entries[n]), '\n');
      EntryLineCount(entries[..n]);
      CardEntryLine(entries[n]);
    }
  }

  /** The card has one line per record when no headline itself breaks a line. */
  lemma CardLineCount(threads: seq<R.Thread>)
    requires forall i | 0 <= i < |threads| :: '\n' !in threads[i].headline
    ensures CountChar(Join(CardEntries(Entries(Records(threads)))), '\n') == |threads|
  {
    var entries := Entries(Records(threads));
    forall i | 0 <= i < |entries|
      ensures '\n' !in entries[i].number && '\n' !in entries[i].headline
    {
      RecordNumber(i);
      var number := NatToString(i + 1);
      forall k | 0 <= k < |number| ensures number[k] != '\n' {
        assert IsDigit(number[k]);
      }
    }
    EntryLineCount(entries);
  }

  // ---------------------------------------------------------------------
  // Asking the read path

  /** The two categories the skill reads, and how each is named. */
  datatype Category = Sensationalist | Polidicks {
    /** The `type` sent to the read path. */
    function TypeString(): string {
      match this
      case Sensationalist => "sensationalist"
      case Polidicks => "polidicks"
    }

    /** The word used for it in the spoken reply. */
    function Adjective(): string {
      match this
      case Sensationalist => "sensationalist"
      case Polidicks => "political"
    }

    function CardTitle(): string {
      match this
      case Sensationalist => "Sensationalist Headlines"
      case Polidicks => "Polidicks Headlines"
    }
  }

  /** The count as it arrives at the read path: NaN is serialised as `null`, the same as no count. */
  function EventCount(count: JsNumber): Option<int> {
    match count
    case Num(n) => Some(n)
    case NaN => None
  }

  /** The request payload: the category, the count, newest activity first. */
  function HeadlinesRequest(category: Category, count: JsNumber): R.Event {
    R.Event(eventType := Some(category.TypeString()), count := EventCount(count), sortKey := Some("lastPostTime"))
  }

  /**
   * The read path serves every request the skill sends: the count is
   * never negative, the number returned is at most 3, 5 or 10, the order
   * is by the last post, and the category's own table is read.
   */
  lemma RequestIsServed(category: Category, request: Request, sensationalistTableName: string, polidicksTableName: string)
    ensures var event := HeadlinesRequest(category, GetHeadlineCount(request));
            && (event.count.None? || event.count.value >= 0)
            && R.Limit(event.count) in {3, 5, 10}
            && R.GetSortKey(event.sortKey) == R.LastPostTime
            && R.GetTargetTable(event.eventType, sensationalistTableName, polidicksTableName)
               == (if category.Polidicks? then polidicksTableName else sensationalistTableName)
  {
    RequestServedFor(category, GetHeadlineCount(request), sensationalistTableName, polidicksTableName);
  }

  /** The same for any count the skill can compute. */
  lemma RequestServedFor(category: Category, count: JsNumber, sensationalistTableName: string, polidicksTableName: string)
    requires count.Num? ==> count.n == 3 || count.n == 5 || count.n == 10
    ensures var event := HeadlinesRequest(category, count);
            && (event.count.None? || event.count.value >= 0)
            && R.Limit(event.count) in {3, 5, 10}
            && R.GetSortKey(event.sortKey) == R.LastPostTime
            && R.GetTargetTable(event.eventType, sensationalistTableName, polidicksTableName)
               == (if category.Polidicks? then polidicksTableName else sensationalistTableName)
  {
    RequestCount(count);
    R.SortKeyByName(R.LastPostTime);
    RequestTable(category, sensationalistTableName, polidicksTableName);
  }

  /** The count sent is never negative and asks for 3, 5 or 10 records. */
  lemma RequestCount(count: JsNumber)
    requires count.Num? ==> count.n == 3 || count.n == 5 || count.n == 10
    ensures EventCount(count).None? || EventCount(count).value >= 0
    ensures R.Limit(EventCount(count)) in {3, 5, 10}
  {
    if count.NaN? {
      R.LimitDefault(None);
    }
  }

  /** The `type` sent selects the category's own table. */
  lemma RequestTable(category: Category, sensationalistTableName: string, polidicksTableName: string)
    ensures R.GetTargetTable(Some(category.TypeString()), sensationalistTableName, polidicksTableName)
            == (if category.Polidicks? then polidicksTableName else sensationalistTableName)
  {
    LowerTypeString(category);
    if category.Polidicks? {
      assert "polidicks"[0] != "sensationalist"[0];
    }
  }

  /** The category names are already lower case. */
  lemma LowerTypeString(category: Category)
    ensures ToLower(category.TypeString()) == category.TypeString()
  {
    match category
    case Sensationalist => LowerUnchanged("sensationalist");
    case Polidicks => LowerUnchanged("polidicks");
  }

  // ---------------------------------------------------------------------
  // Replying

  /** A headlines reply with its card, or the error handler's apology with its reprompt. */
  datatype Response =
    | Headlines(speech: string, cardTitle: string, cardText: string)
    | Apology(speech: string, reprompt: string)

  const ErrorMessage: string := "Sorry, an error occurred."

  /** What the error handler answers to anything a handler throws. */
  const ErrorResponse: Response := Apology(ErrorMessage, ErrorMessage)

  /** The spoken opening: how many headlines of which kind follow. */
  function Intro(category: Category, length: string): string {
    "Here are the latest " + length + " " + category.Adjective() + " headlines from Facepunch."
  }

  /** The reply of a headlines handler to what the read path answered. */
  function HeadlinesResponse(category: Category, reply: Reply): Response {
    Headlines(
      speech := Intro(category, LengthText(reply)) + Join(SpokenEntries(Entries(reply))),
      cardTitle := category.CardTitle(),
      cardText := Join(CardEntries(Entries(reply))))
  }

  /** `count` copies of `s`, one after another. */
  function Repeat(s: string, count: nat): string {
    if count == 0 then "" else Repeat(s, count - 1) + s
  }

  /**
   * A payload that does not parse is answered as no headlines at all:
   * "the latest 0", and an empty card.
   */
  lemma UnparseableSpeaksNone(category: Category)
    ensures HeadlinesResponse(category, GetHeadlines(Unparseable)) == Headlines(Intro(category, "0"), category.CardTitle(), "")
  {
    assert NatToString(0) == "0";
    assert Entries(Records([])) == [];
  }

  /** The entry of a field of an error object whose name is no number. */
  const UndefinedEntry: Entry := Entry("undefined", "NaN", "undefined")

  const UndefinedSpoken: string := " undefined headline: undefined."

  /** The entry of an error-object field, as spoken. */
  lemma UndefinedSpokenText()
    ensures SpokenEntry(UndefinedEntry) == UndefinedSpoken
  {
    var spoken, text := SpokenEntry(UndefinedEntry), UndefinedSpoken;
    assert |spoken| == |text|;
    forall i | 0 <= i < |spoken| ensures spoken[i] == text[i] { }
  }

  /** The entry of an error-object field, as printed on the card. */
  lemma UndefinedCardText()
    ensures CardEntry(UndefinedEntry) == "NaN. undefined\n"
  {
    var card, text := CardEntry(UndefinedEntry), "NaN. undefined\n";
    assert |card| == |text|;
    forall i | 0 <= i < |card| ensures card[i] == text[i] { }
  }

  /** Field names that are no numbers give nothing but undefined entries. */
  lemma ErrorEntries(fields: seq<string>)
    requires forall i | 0 <= i < |fields| :: ParseInt(fields[i]).None?
    ensures forall i | 0 <= i < |fields| :: Entries(ErrorObject(fields))[i] == UndefinedEntry
  {
    forall i | 0 <= i < |fields| ensures KeyPlusOne(fields[i]) == "NaN" {
    }
  }

  /**
   * When the read path throws, the reply is its error object: the opening
   * announces "undefined" headlines, and every field is spoken and printed
   * as an undefined entry (`UndefinedSpokenText`, `UndefinedCardText`).
   */
  lemma ErrorObjectSpeaksUndefined(category: Category, fields: seq<string>)
    requires forall i | 0 <= i < |fields| :: ParseInt(fields[i]).None?
    ensures HeadlinesResponse(category, ErrorObject(fields))
            == Headlines(
                 Intro(category, "undefined") + Repeat(SpokenEntry(UndefinedEntry), |fields|),
                 category.CardTitle(),
                 Repeat(CardEntry(UndefinedEntry), |fields|))
  {
    ErrorEntries(fields);
    JoinRepeated(Entries(ErrorObject(fields)), UndefinedEntry);
  }

  /** Entries that are all the same give that entry's text once per entry. */
  lemma {:induction false} JoinRepeated(entries: seq<Entry>, e: Entry)
    requires forall i | 0 <= i < |entries| :: entries[i] == e
    ensures Join(SpokenEntries(entries)) == Repeat(SpokenEntry(e), |entries|)
    ensures Join(CardEntries(entries)) == Repeat(CardEntry(e), |entries|)
    decreases |entries|
  {
    if entries != [] {
      var n := |entries| - 1;
      JoinRepeated(entries[..n], e);
      EntriesPush(entries, n);
      assert entries[..n + 1] == entries;
      JoinPush(SpokenEntries(entries[..n]), SpokenEntry(e));
      JoinPush(CardEntries(entries[..n]), CardEntry(e));
    }
  }

  /** Proof helper: three repetitions written out. */
  lemma RepeatThree(prefix: string, s: string)
    ensures prefix + Repeat(s, 3) == prefix + s + s + s
  {
    assert Repeat(s, 1) == s by {
      assert Repeat(s, 0) == "";
    }
  }

  /** The field names of a Node.js function error; none of them reads as a number. */
  const FunctionErrorFields: seq<string> := ["errorMessage", "errorType", "stackTrace"]

  lemma FunctionErrorFieldsAreNoNumbers()
    ensures forall i | 0 <= i < |FunctionErrorFields| :: ParseInt(FunctionErrorFields[i]).None?
  {
    forall i | 0 <= i < |FunctionErrorFields| ensures ParseInt(FunctionErrorFields[i]).None? {
      var field := FunctionErrorFields[i];
      assert field[0] == 'e' || field[0] == 's';
      ParseIntNoNumber(field);
    }
  }

  /** The error object of a function that throws, as the invoke returns it, spoken in full. */
  lemma FunctionErrorSpeech()
    ensures HeadlinesResponse(Sensationalist, ErrorObject(FunctionErrorFields)).speech
            == Intro(Sensationalist, "undefined") + UndefinedSpoken + UndefinedSpoken + UndefinedSpoken
  {
    var u := SpokenEntry(UndefinedEntry);
    FunctionErrorFieldsAreNoNumbers();
    ErrorObjectSpeaksUndefined(Sensationalist, FunctionErrorFields);
    UndefinedSpokenText();
    RepeatThree(Intro(Sensationalist, "undefined"), u);
  }

  /** Asking the read path for `count` records and building the reply from its answer. */
  method AnswerHeadlines(category: Category, count: JsNumber, invoke: R.Event -> Payload)
    returns (response: Response)
    ensures response == HeadlinesResponse(category, GetHeadlines(invoke(HeadlinesRequest(category, count))))
  {
    var reply := GetHeadlines(invoke(HeadlinesRequest(category, count)));
    var spokenString, cardString := GetHeadlineData(reply);
    response := Headlines(
      speech := Intro(category, LengthText(reply)) + spokenString,
      cardTitle := category.CardTitle(),
      cardText := cardString);
  }

  /**
   * A headlines handler as written: the count is read from the intent's
   * slots, so a launch request throws there and the error handler's
   * apology is the reply; any other request is answered with headlines.
   */
  method HandleHeadlines(category: Category, request: Request, invoke: R.Event -> Payload)
    returns (response: Response)
    ensures request.LaunchRequest? ==> response == ErrorResponse
    ensures request.IntentRequest? ==>
              response == HeadlinesResponse(category, GetHeadlines(invoke(HeadlinesRequest(category, CountFromSlots(request.intent.slots)))))
  {
    var count := GetHeadlineCountAsWritten(request);
    if count.Failure? {
      response := ErrorResponse;
    } else {
      response := AnswerHeadlines(category, count.value, invoke);
    }
  }

  /**
   * The same handler with the corrected count: opening the skill is
   * answered with the default number of headlines.
   */
  method HandleHeadlinesCorrected(category: Category, request: Request, invoke: R.Event -> Payload)
    returns (response: Response)
    ensures request.LaunchRequest? ==>
              response == HeadlinesResponse(category, GetHeadlines(invoke(HeadlinesRequest(category, Num(DefaultHeadlineCount)))))
    ensures request.IntentRequest? ==>
              response == HeadlinesResponse(category, GetHeadlines(invoke(HeadlinesRequest(category, CountFromSlots(request.intent.slots)))))
  {
    response := AnswerHeadlines(category, GetHeadlineCount(request), invoke);
  }
}

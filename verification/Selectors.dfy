/** The compound selector: its JSON form on the wire, and how the agent decodes it. */
module Selectors {
  import opened Wrappers
  import opened JsonValues

  datatype Selector = Selector(
    elementType: Option<string>, identifier: Option<string>, labelText: Option<string>, text: Option<string>,
    value: Option<string>, predicateFormat: Option<string>, index: Option<int>, exact: bool, parent: Option<Selector>)
  {
    /** Some criterion besides `exact` and `parent`. */
    predicate HasCriterion() {
      elementType.Some? || identifier.Some? || labelText.Some? || text.Some?
      || value.Some? || predicateFormat.Some? || index.Some?
    }
  }

  const NO_CRITERIA := Selector(None, None, None, None, None, None, None, true, None)

  // ---- The SDK's side -----------------------------------------------------------------------------

  datatype StrategyValue = Word(text: string) | Whole(number: int)

  /** `str(value)`, with integers printed by `printed`. */
  function AsString(v: StrategyValue, printed: int -> string): string {
    match v
    case Word(s) => s
    case Whole(n) => printed(n)
  }

  /** `int(value)`; text is read by `whole`, which fails where Python would raise. */
  function AsInt(v: StrategyValue, whole: string -> Option<int>): Option<int> {
    match v
    case Word(s) => whole(s)
    case Whole(n) => Some(n)
  }

  /** `None` stands for the `ValueError` of an unsupported strategy or an unreadable index. */
  function ByStrategy(strategy: string, v: StrategyValue, printed: int -> string, whole: string -> Option<int>): Option<Selector> {
    match strategy
    case "accessibilityId" => Some(NO_CRITERIA.(identifier := Some(AsString(v, printed))))
    case "identifier" => Some(NO_CRITERIA.(identifier := Some(AsString(v, printed))))
    case "label" => Some(NO_CRITERIA.(labelText := Some(AsString(v, printed))))
    case "text" => Some(NO_CRITERIA.(text := Some(AsString(v, printed))))
    case "type" => Some(NO_CRITERIA.(elementType := Some(AsString(v, printed))))
    case "predicate" => Some(NO_CRITERIA.(predicateFormat := Some(AsString(v, printed))))
    case "index" =>
      if AsInt(v, whole).Some? then Some(NO_CRITERIA.(index := AsInt(v, whole))) else None
    case _ => None
  }

  function Put(m: map<string, Json>, key: string, v: Option<Json>): map<string, Json> {
    if v.Some? then m[key := v.value] else m
  }

  function Text(v: Option<string>): Option<Json> {
    if v.Some? then Some(String(v.value)) else None
  }

  function Count(v: Option<int>): Option<Json> {
    if v.Some? then Some(Number(v.value)) else None
  }

  function Inner(s: Selector): Option<Json>
    decreases s, 0
  {
    if s.parent.Some? then Some(Object(WireForm(s.parent.value))) else None
  }

  /** The criteria that are there, and `exact`. */
  function OwnFields(s: Selector): map<string, Json> {
    var m0 := map["exact" := Bool(s.exact)];
    var m1 := Put(m0, "type", Text(s.elementType));
    var m2 := Put(m1, "identifier", Text(s.identifier));
    var m3 := Put(m2, "label", Text(s.labelText));
    var m4 := Put(m3, "text", Text(s.text));
    var m5 := Put(m4, "value_", Text(s.value));
    var m6 := Put(m5, "predicate", Text(s.predicateFormat));
    Put(m6, "index", Count(s.index))
  }

  /** The selector as JSON. */
  function WireForm(s: Selector): map<string, Json>
    decreases s, 1
  {
    Put(OwnFields(s), "parent", Inner(s))
  }

  /** The dictionary is filled key by key. */
  method ToWire(s: Selector) returns (payload: map<string, Json>)
    ensures payload == WireForm(s)
    decreases s
  {
    payload := FillOwn(s);
    if s.parent.Some? {
      var inner := ToWire(s.parent.value);
      payload := payload["parent" := Object(inner)];
    }
  }

  method FillOwn(s: Selector) returns (payload: map<string, Json>)
    ensures payload == OwnFields(s)
  {
    payload := map["exact" := Bool(s.exact)];
    if s.elementType.Some? { payload := payload["type" := String(s.elementType.value)]; }
    if s.identifier.Some? { payload := payload["identifier" := String(s.identifier.value)]; }
    if s.labelText.Some? { payload := payload["label" := String(s.labelText.value)]; }
    if s.text.Some? { payload := payload["text" := String(s.text.value)]; }
    if s.value.Some? { payload := payload["value_" := String(s.value.value)]; }
    if s.predicateFormat.Some? { payload := payload["predicate" := String(s.predicateFormat.value)]; }
    if s.index.Some? { payload := payload["index" := Number(s.index.value)]; }
  }

  // ---- Numbers as doubles ---------------------------------------------------------------------------

  /** The distance between neighbouring doubles around a whole number: 1 up to 2^53, then doubling. */
  function Spacing(n: nat): (g: nat)
    ensures g >= 1
  {
    if n < 0x20_0000_0000_0000 then 1 else 2 * Spacing(n / 2)
  }

  /** The double nearest to a whole number, ties to even. */
  function Nearest(n: int): int {
    if n < 0 then -(Rounded(-n) as int) else Rounded(n)
  }

  function Rounded(n: nat): nat {
    var g := Spacing(n);
    var q, r := n / g, n % g;
    g * (if 2 * r > g || (2 * r == g && q % 2 == 1) then q + 1 else q)
  }

  predicate IsDouble(n: int) {
    (if n < 0 then -n else n) % Spacing(if n < 0 then -n else n) == 0
  }

  /** A whole number survives the trip through a double exactly when it is a multiple of the spacing there. */
  lemma NearestIsExact(n: int)
    ensures Nearest(n) == n <==> IsDouble(n)
  {
    var m: nat := if n < 0 then -n else n;
    RoundedIsExact(m, Spacing(m));
  }

  lemma RoundedIsExact(m: nat, g: nat)
    requires g == Spacing(m)
    ensures Rounded(m) == m <==> m % g == 0
  {
    var q, r := m / g, m % g;
    assert m == g * q + r;
    assert g * (q + 1) == g * q + g;
  }

  /** Otherwise it becomes the nearest multiple of the spacing, of two equally near ones the even one. */
  lemma NearestIsNear(n: nat) returns (k: nat)
    ensures var (g, d) := (Spacing(n), Nearest(n));
      && d == g * k && 2 * (d - n) <= g && 2 * (n - d) <= g
      && (2 * (d - n) == g || 2 * (n - d) == g ==> k % 2 == 0)
    ensures Nearest(0 - n) == 0 - Nearest(n)
  {
    var g := Spacing(n);
    var q, r := n / g, n % g;
    k := if 2 * r > g || (2 * r == g && q % 2 == 1) then q + 1 else q;
    Quotient(n, g, q, r);
  }

  lemma Quotient(n: nat, g: nat, q: nat, r: nat)
    requires g >= 1 && q == n / g && r == n % g
    ensures n == g * q + r && g * (q + 1) == g * q + g
  {
  }

  lemma SmallNumbersAreDoubles(n: int)
    requires -0x20_0000_0000_0000 < n < 0x20_0000_0000_0000
    ensures IsDouble(n)
  {
  }

  // ---- The agent's side -----------------------------------------------------------------------------

  /** Decoding gives a selector, throws `INVALID_PARAMS`, or traps converting a number too large for `Int`. */
  datatype Decoded = Selected(selector: Selector) | InvalidParams(message: string) | Trap

  /** `intValue`, on a number as it was sent; text is read by `double`, which fails where it is no number. */
  datatype IntRead = NoInt | IntTrap | GotInt(n: int)

  function ToInt(double: int): IntRead {
    if -0x8000_0000_0000_0000 <= double < 0x8000_0000_0000_0000 then GotInt(double) else IntTrap
  }

  function IntValue(j: Option<Json>, double: string -> Option<int>): IntRead {
    match j
    case Some(Number(n)) => ToInt(Nearest(n))
    case Some(String(s)) => if double(s).Some? then ToInt(double(s).value) else NoInt
    case Some(Bool(b)) => GotInt(if b then 1 else 0)
    case _ => NoInt
  }

  function StringAt(fields: map<string, Json>, key: string): Option<string> {
    if key in fields then fields[key].StringValue() else None
  }

  /** The compact form; `None` for an unknown strategy. */
  function CompactStart(strategy: string, raw: Option<string>, number: Option<int>): Option<Selector> {
    match strategy
    case "accessibilityId" => Some(NO_CRITERIA.(identifier := raw))
    case "identifier" => Some(NO_CRITERIA.(identifier := raw))
    case "label" => Some(NO_CRITERIA.(labelText := raw))
    case "text" => Some(NO_CRITERIA.(text := raw))
    case "type" => Some(NO_CRITERIA.(elementType := raw))
    case "predicate" => Some(NO_CRITERIA.(predicateFormat := raw))
    case "index" => Some(NO_CRITERIA.(index := number))
    case _ => None
  }

  function AsOption(r: IntRead): Option<int> {
    if r.GotInt? then Some(r.n) else None
  }

  /** The fields, read over what the compact form has set. */
  function Overlay(start: Selector, fields: map<string, Json>, index: Option<int>, parent: Option<Selector>): Selector {
    Selector(
      OrElse(StringAt(fields, "type"), start.elementType), OrElse(StringAt(fields, "identifier"), start.identifier),
      OrElse(StringAt(fields, "label"), start.labelText), OrElse(StringAt(fields, "text"), start.text),
      OrElse(StringAt(fields, "value_"), start.value), OrElse(StringAt(fields, "predicate"), start.predicateFormat),
      OrElse(index, start.index),
      if "exact" in fields && fields["exact"].BoolValue().Some? then fields["exact"].BoolValue().value else true,
      parent)
  }

  /** A missing selector reads as null. */
  function Decode(j: Json, double: string -> Option<int>): Decoded
    decreases j
  {
    if !j.Object? then InvalidParams("`selector` must be an object")
    else
      var fields := j.fields;
      var strategy := StringAt(fields, "strategy");
      var compactIndex := if strategy == Some("index") then IntValue(Field(fields, "value"), double) else NoInt;
      if compactIndex.IntTrap? then Trap
      else
        var start := if strategy.None? then Some(NO_CRITERIA)
                     else CompactStart(strategy.value, StringAt(fields, "value"), AsOption(compactIndex));
        var index := IntValue(Field(fields, "index"), double);
        if start.None? then InvalidParams("Unknown locator strategy")
        else if index.IntTrap? then Trap
        else if "parent" in fields && fields["parent"] != Null then
          var above := Decode(fields["parent"], double);
          if above.Selected? then Checked(Overlay(start.value, fields, AsOption(index), Some(above.selector))) else above
        else Checked(Overlay(start.value, fields, AsOption(index), None))
  }

  function Checked(s: Selector): Decoded {
    if s.HasCriterion() then Selected(s) else InvalidParams("Selector has no criteria")
  }

  /** A number that is given: as the nearest double, as text that reads as one, or as a flag. */
  function Given(j: Option<Json>, double: string -> Option<int>): Option<int> {
    match j
    case Some(Number(n)) => Some(Nearest(n))
    case Some(String(s)) => double(s)
    case Some(Bool(b)) => Some(if b then 1 else 0)
    case _ => None
  }

  /** Text that is given: numbers and flags are none. */
  function TextAt(f: map<string, Json>, key: string): Option<string> {
    match Field(f, key)
    case Some(String(s)) => Some(s)
    case _ => None
  }

  lemma TextIsRead(f: map<string, Json>, key: string)
    ensures StringAt(f, key) == TextAt(f, key)
  {
  }

  predicate FitsInt(n: Option<int>) {
    n.Some? ==> -0x8000_0000_0000_0000 <= n.value < 0x8000_0000_0000_0000
  }

  lemma GivenIsRead(j: Option<Json>, double: string -> Option<int>)
    ensures IntValue(j, double).IntTrap? <==> !FitsInt(Given(j, double))
    ensures FitsInt(Given(j, double)) ==> AsOption(IntValue(j, double)) == Given(j, double)
  {
  }

  /** What the compact form says, under one of these strategies. */
  function Compact(f: map<string, Json>, strategy: string): Option<string> {
    if TextAt(f, "strategy") == Some(strategy) then TextAt(f, "value") else None
  }

  function CompactNumber(f: map<string, Json>, double: string -> Option<int>): Option<int> {
    if TextAt(f, "strategy") == Some("index") then Given(Field(f, "value"), double) else None
  }

  /** The selector says what the fields say, and a field of its own comes before the compact form. */
  predicate Says(s: Selector, f: map<string, Json>, double: string -> Option<int>) {
    && s.elementType == OrElse(TextAt(f, "type"), Compact(f, "type"))
    && s.identifier == OrElse(TextAt(f, "identifier"), OrElse(Compact(f, "identifier"), Compact(f, "accessibilityId")))
    && s.labelText == OrElse(TextAt(f, "label"), Compact(f, "label"))
    && s.text == OrElse(TextAt(f, "text"), Compact(f, "text"))
    && s.value == TextAt(f, "value_")
    && s.predicateFormat == OrElse(TextAt(f, "predicate"), Compact(f, "predicate"))
    && s.index == OrElse(Given(Field(f, "index"), double), CompactNumber(f, double))
    && s.exact == match Field(f, "exact") { case Some(Bool(b)) => b case Some(Number(n)) => n != 0 case _ => true }
  }

  lemma StartSays(f: map<string, Json>, double: string -> Option<int>, parent: Option<Selector>)
    requires FitsInt(Given(Field(f, "index"), double)) && FitsInt(CompactNumber(f, double))
    ensures var strategy := TextAt(f, "strategy");
      var start := if strategy.None? then Some(NO_CRITERIA)
                   else CompactStart(strategy.value, TextAt(f, "value"), CompactNumber(f, double));
      && (start.None? <==> strategy.Some? && strategy.value !in STRATEGIES)
      && (start.Some? ==> Says(Overlay(start.value, f, Given(Field(f, "index"), double), parent), f, double))
  {
  }

  const STRATEGIES := {"accessibilityId", "identifier", "label", "text", "type", "predicate", "index"}

  /**
   Decoding, exactly, for numbers that fit `Int`: an object of which the strategy is known, if it names
   one, becomes the selector that says what its fields say, if there is a criterion and the parent, if
   there is one and it is not null, decodes; what the parent fails with, the whole does, and all else
   is refused.
  */
  lemma DecodeSays(j: Json, double: string -> Option<int>)
    requires j.Object? ==> FitsInt(Given(Field(j.fields, "index"), double)) && FitsInt(CompactNumber(j.fields, double))
    ensures var decoded := Decode(j, double);
      if !j.Object? then decoded.InvalidParams?
      else
        var (f, strategy, parent) := (j.fields, TextAt(j.fields, "strategy"), Field(j.fields, "parent"));
        var inner := if parent.Some? && parent.value != Null then Some(Decode(parent.value, double)) else None;
        if strategy.Some? && strategy.value !in STRATEGIES then decoded.InvalidParams?
        else if inner.Some? && !inner.value.Selected? then decoded == inner.value
        else if decoded.Selected? then
          && Says(decoded.selector, f, double) && decoded.selector.HasCriterion()
          && decoded.selector.parent == if inner.Some? then Some(inner.value.selector) else None
        else decoded.InvalidParams? && forall s: Selector :: Says(s, f, double) ==> !s.HasCriterion()
  {
    if j.Object? {
      var f := j.fields;
      GivenIsRead(Field(f, "index"), double);
      GivenIsRead(Field(f, "value"), double);
      TextIsRead(f, "strategy");
      TextIsRead(f, "value");
      var inner := if "parent" in f && f["parent"] != Null then Some(Decode(f["parent"], double)) else None;
      StartSays(f, double, if inner.Some? && inner.value.Selected? then Some(inner.value.selector) else None);
    }
  }

  /** Other numbers trap, unless the strategy is refused first. */
  lemma DecodeTraps(j: Json, double: string -> Option<int>)
    requires j.Object? && !(FitsInt(Given(Field(j.fields, "index"), double)) && FitsInt(CompactNumber(j.fields, double)))
    ensures var strategy := TextAt(j.fields, "strategy");
      if strategy.Some? && strategy.value !in STRATEGIES then Decode(j, double).InvalidParams? else Decode(j, double).Trap?
  {
    var f := j.fields;
    GivenIsRead(Field(f, "index"), double);
    GivenIsRead(Field(f, "value"), double);
  }

  // ---- Round trips --------------------------------------------------------------------------------------

  /** At every level some criterion, and an index that is a double within `Int`. */
  predicate Transmissible(s: Selector) {
    && s.HasCriterion()
    && (s.index.Some? ==> IsDouble(s.index.value) && ToInt(s.index.value).GotInt?)
    && (s.parent.Some? ==> Transmissible(s.parent.value))
  }

  lemma PutField(m: map<string, Json>, key: string, v: Option<Json>, other: string)
    ensures Field(Put(m, key, v), other) == if other == key && v.Some? then v else Field(m, other)
  {
  }

  function Entry(s: Selector, key: string): Option<Json> {
    if key == "exact" then Some(Bool(s.exact))
    else if key == "type" then Text(s.elementType)
    else if key == "identifier" then Text(s.identifier)
    else if key == "label" then Text(s.labelText)
    else if key == "text" then Text(s.text)
    else if key == "value_" then Text(s.value)
    else if key == "predicate" then Text(s.predicateFormat)
    else if key == "index" then Count(s.index)
    else if key == "parent" then Inner(s)
    else None
  }

  lemma OwnEntry(s: Selector, key: string)
    ensures Field(OwnFields(s), key) == if key == "parent" then None else Entry(s, key)
  {
    var m0 := map["exact" := Bool(s.exact)];
    var m1 := Put(m0, "type", Text(s.elementType));
    var m2 := Put(m1, "identifier", Text(s.identifier));
    var m3 := Put(m2, "label", Text(s.labelText));
    var m4 := Put(m3, "text", Text(s.text));
    var m5 := Put(m4, "value_", Text(s.value));
    var m6 := Put(m5, "predicate", Text(s.predicateFormat));
    PutField(m0, "type", Text(s.elementType), key);
    PutField(m1, "identifier", Text(s.identifier), key);
    PutField(m2, "label", Text(s.labelText), key);
    PutField(m3, "text", Text(s.text), key);
    PutField(m4, "value_", Text(s.value), key);
    PutField(m5, "predicate", Text(s.predicateFormat), key);
    PutField(m6, "index", Count(s.index), key);
  }

  lemma WireEntry(s: Selector, key: string)
    ensures Field(WireForm(s), key) == Entry(s, key)
  {
    OwnEntry(s, key);
    PutField(OwnFields(s), "parent", Inner(s), key);
  }

  /** A field of text reads back as it was written. */
  lemma TextReadsBack(s: Selector, key: string, v: Option<string>)
    requires Entry(s, key) == Text(v)
    ensures StringAt(WireForm(s), key) == v
  {
    WireEntry(s, key);
  }

  lemma TypeReadsBack(s: Selector)
    ensures StringAt(WireForm(s), "type") == s.elementType && StringAt(WireForm(s), "identifier") == s.identifier
  {
    TextReadsBack(s, "type", s.elementType);
    TextReadsBack(s, "identifier", s.identifier);
  }

  lemma LabelReadsBack(s: Selector)
    ensures StringAt(WireForm(s), "label") == s.labelText && StringAt(WireForm(s), "text") == s.text
  {
    assert "label"[0] == 'l' && "exact"[0] == 'e' && "index"[0] == 'i' && "type"[1] == 'y' && "text"[1] == 'e';
    TextReadsBack(s, "label", s.labelText);
    TextReadsBack(s, "text", s.text);
  }

  lemma ValueReadsBack(s: Selector)
    ensures StringAt(WireForm(s), "value_") == s.value && StringAt(WireForm(s), "predicate") == s.predicateFormat
    ensures StringAt(WireForm(s), "strategy") == None
  {
    TextReadsBack(s, "value_", s.value);
    TextReadsBack(s, "predicate", s.predicateFormat);
    TextReadsBack(s, "strategy", None);
  }

  lemma OthersReadBack(s: Selector)
    ensures Field(WireForm(s), "exact") == Some(Bool(s.exact)) && Field(WireForm(s), "index") == Count(s.index)
    ensures Field(WireForm(s), "parent") == Inner(s)
  {
    assert "label"[0] == 'l' && "exact"[0] == 'e' && "index"[0] == 'i' && "value_"[0] == 'v' && "parent"[0] == 'p';
    WireEntry(s, "exact");
    WireEntry(s, "index");
    WireEntry(s, "parent");
  }

  lemma OverlayReadsBack(s: Selector, index: Option<int>, parent: Option<Selector>)
    ensures Overlay(NO_CRITERIA, WireForm(s), index, parent) == s.(index := index, parent := parent)
  {
    TypeReadsBack(s);
    LabelReadsBack(s);
    ValueReadsBack(s);
    OthersReadBack(s);
  }

  /** What decoding gives for a selector as it was sent, level by level. */
  function Arrived(s: Selector, double: string -> Option<int>): Decoded {
    var index := IntValue(Count(s.index), double);
    if index.IntTrap? then Trap
    else if s.parent.None? then Checked(s.(index := AsOption(index)))
    else
      var above := Decode(Object(WireForm(s.parent.value)), double);
      if above.Selected? then Checked(s.(index := AsOption(index), parent := Some(above.selector))) else above
  }

  /** Without the compact form, decoding is the overlay over no criteria. */
  lemma DecodeFields(f: map<string, Json>, index: Option<Json>, parent: Option<Json>, double: string -> Option<int>)
    requires StringAt(f, "strategy") == None && Field(f, "index") == index && Field(f, "parent") == parent
    ensures Decode(Object(f), double) ==
      var read := IntValue(index, double);
      if read.IntTrap? then Trap
      else if parent.None? || parent.value == Null then Checked(Overlay(NO_CRITERIA, f, AsOption(read), None))
      else
        var above := Decode(parent.value, double);
        if above.Selected? then Checked(Overlay(NO_CRITERIA, f, AsOption(read), Some(above.selector))) else above
  {
  }

  lemma DecodeWire(s: Selector, double: string -> Option<int>)
    ensures Decode(Object(WireForm(s)), double) == Arrived(s, double)
  {
    ValueReadsBack(s);
    OthersReadBack(s);
    var parent := if s.parent.Some? then Some(Object(WireForm(s.parent.value))) else None;
    DecodeFields(WireForm(s), Count(s.index), parent, double);
    var index := AsOption(IntValue(Count(s.index), double));
    if s.parent.None? {
      OverlayReadsBack(s, index, None);
    } else {
      var above := Decode(Object(WireForm(s.parent.value)), double);
      if above.Selected? { OverlayReadsBack(s, index, Some(above.selector)); }
    }
  }

  /**
   A selector chain arrives as it was sent if and only if it is transmissible: each level has a
   criterion of its own, and each index is exactly a double, and fits `Int`.
  */
  lemma {:induction false} SelectorRoundTrip(s: Selector, double: string -> Option<int>)
    ensures Decode(Object(WireForm(s)), double) == Selected(s) <==> Transmissible(s)
    decreases s
  {
    DecodeWire(s, double);
    if s.parent.Some? { SelectorRoundTrip(s.parent.value, double); }
    if s.index.Some? { NearestIsExact(s.index.value); }
  }

  // ---- The compact form ---------------------------------------------------------------------------------

  function AsJson(v: StrategyValue): Json {
    match v
    case Word(s) => String(s)
    case Whole(n) => Number(n)
  }

  function CompactFields(strategy: string, v: StrategyValue): map<string, Json> {
    map["strategy" := String(strategy), "value" := AsJson(v)]
  }

  lemma CompactHasNoOtherFields(strategy: string, v: StrategyValue)
    ensures var f := CompactFields(strategy, v);
      && StringAt(f, "strategy") == Some(strategy) && StringAt(f, "value") == (if v.Word? then Some(v.text) else None)
      && Field(f, "value") == Some(AsJson(v))
      && Field(f, "index") == None && "parent" !in f
  {
    assert "value"[0] == 'v' && "index"[0] == 'i';
  }

  lemma CompactOverlaysNothing(strategy: string, v: StrategyValue, start: Selector)
    requires start.exact && start.parent.None?
    ensures Overlay(start, CompactFields(strategy, v), None, None) == start
  {
    var f := CompactFields(strategy, v);
    assert "value"[0] == 'v' && "label"[0] == 'l' && "exact"[0] == 'e';
    assert "type" !in f && "identifier" !in f && "label" !in f && "text" !in f;
    assert "value_" !in f && "predicate" !in f && "exact" !in f;
  }

  /** The two sides keep the same table of strategies. */
  lemma SameTable(strategy: string, v: StrategyValue, printed: int -> string, whole: string -> Option<int>)
    requires strategy != "index"
    ensures ByStrategy(strategy, v, printed, whole) == CompactStart(strategy, Some(AsString(v, printed)), None)
  {
  }

  lemma StartKeepsText(strategy: string, raw: Option<string>)
    requires strategy != "index"
    ensures var start := CompactStart(strategy, raw, None);
      start.Some? ==>
        && start.value.exact && start.value.parent.None? && start.value.index.None?
        && (start.value.HasCriterion() <==> raw.Some?)
  {
  }

  lemma DecodeCompact(strategy: string, v: StrategyValue, double: string -> Option<int>)
    requires strategy != "index"
    ensures var start := CompactStart(strategy, if v.Word? then Some(v.text) else None, None);
      var decoded := Decode(Object(CompactFields(strategy, v)), double);
      if start.None? then decoded.InvalidParams? else decoded == Checked(start.value)
  {
    var raw := if v.Word? then Some(v.text) else None;
    CompactHasNoOtherFields(strategy, v);
    StartKeepsText(strategy, raw);
    var start := CompactStart(strategy, raw, None);
    if start.Some? { CompactOverlaysNothing(strategy, v, start.value); }
  }

  lemma DecodeCompactIndex(v: StrategyValue, double: string -> Option<int>)
    ensures Decode(Object(CompactFields("index", v)), double) ==
      match IntValue(Some(AsJson(v)), double)
      case IntTrap => Trap
      case NoInt => Checked(NO_CRITERIA)
      case GotInt(n) => Selected(NO_CRITERIA.(index := Some(n)))
  {
    CompactHasNoOtherFields("index", v);
    var start := NO_CRITERIA.(index := AsOption(IntValue(Some(AsJson(v)), double)));
    CompactOverlaysNothing("index", v, start);
    assert "index"[0] == 'i' && "label"[0] == 'l';
  }

  /** What the agent makes of an index sent as text, and as the number the SDK makes of that text. */
  predicate SameIndex(v: StrategyValue, whole: string -> Option<int>, double: string -> Option<int>)
    requires AsInt(v, whole).Some?
  {
    v.Whole? || (double(v.text).Some? && ToInt(double(v.text).value) == ToInt(Nearest(whole(v.text).value)))
  }

  lemma DecodeWireIndex(n: int, double: string -> Option<int>)
    ensures Decode(Object(WireForm(NO_CRITERIA.(index := Some(n)))), double) ==
      if ToInt(Nearest(n)).IntTrap? then Trap else Selected(NO_CRITERIA.(index := Some(Nearest(n))))
  {
    DecodeWire(NO_CRITERIA.(index := Some(n)), double);
  }

  lemma CompactIndexMeans(v: StrategyValue, whole: string -> Option<int>, double: string -> Option<int>)
    requires AsInt(v, whole).Some?
    ensures (Decode(Object(CompactFields("index", v)), double) == Decode(Object(WireForm(NO_CRITERIA.(index := AsInt(v, whole)))), double))
      <==> SameIndex(v, whole, double)
  {
    DecodeCompactIndex(v, double);
    DecodeWireIndex(AsInt(v, whole).value, double);
  }

  /**
   The compact form and `by_strategy` followed by `to_wire`. Under a strategy for text they decode
   alike for text, and part for a number. Under `index` they decode alike for a number, and for text if
   and only if the agent reads the index from the text that it reads from the SDK's number. A strategy
   the SDK does not know the agent refuses too; text the SDK cannot read as an index it refuses if and
   only if it is no number to the agent either.
  */
  lemma CompactMeansByStrategy(strategy: string, v: StrategyValue, printed: int -> string, whole: string -> Option<int>, double: string -> Option<int>)
    ensures var s := ByStrategy(strategy, v, printed, whole);
      var compact := Decode(Object(CompactFields(strategy, v)), double);
      if s.None? then compact.InvalidParams? <==> (strategy == "index" ==> double(v.text).None?)
      else compact == Decode(Object(WireForm(s.value)), double) <==>
        if strategy == "index" then SameIndex(v, whole, double) else v.Word?
  {
    var s := ByStrategy(strategy, v, printed, whole);
    if strategy == "index" {
      DecodeCompactIndex(v, double);
      if s.Some? { CompactIndexMeans(v, whole, double); }
    } else {
      if s.Some? { DecodeWire(s.value, double); }
      DecodeCompact(strategy, v, double);
      SameTable(strategy, v, printed, whole);
      StartKeepsText(strategy, Some(AsString(v, printed)));
      StartKeepsText(strategy, if v.Word? then Some(v.text) else None);
    }
  }
}

/** The shared dictionary of an OTLP profiles export: src/otlp/mod.rs, lines 383-658, writing the
    message `ProfilesDictionary` of opentelemetry-proto v1.11.0. */
module OtlpDictionary {
  import opened Machine
  import opened PprofProfile

  datatype AttributeValue = NoValue | StringValue(text: string) | BoolValue(flag: bool) | IntValue(number: int)

  datatype OMapping = OMapping(
    memoryStart: nat, memoryLimit: nat, fileOffset: nat, filename: nat, attributes: seq<nat>)
  datatype OLine = OLine(function_: nat, line: int, column: int)
  datatype OLocation = OLocation(mapping: nat, address: u64, lines: seq<OLine>, attributes: seq<nat>)
  datatype OFunction = OFunction(name: nat, systemName: nat, filename: nat, startLine: int)
  datatype OAttribute = OAttribute(key: nat, value: AttributeValue, unit: nat)

  datatype Dictionary = Dictionary(
    strings: seq<string>, mappings: seq<OMapping>, locations: seq<OLocation>, functions: seq<OFunction>,
    attributes: seq<OAttribute>, stacks: seq<seq<nat>>)

  /** Entry zero of every table stands for nothing. */
  const EMPTY_DICTIONARY := Dictionary(
    [""], [OMapping(0, 0, 0, 0, [])], [OLocation(0, 0, [], [])], [OFunction(0, 0, 0, 0)],
    [OAttribute(0, NoValue, 0)], [[]])

  // Reading a dictionary.

  datatype AttributeMeaning = AttributeMeaning(key: string, value: AttributeValue, unit: string)

  const GNU_BUILD_ID := "process.executable.build_id.gnu"

  function DecodeString(d: Dictionary, i: nat): string {
    if i < |d.strings| then d.strings[i] else ""
  }

  function ReadAttribute(d: Dictionary, a: OAttribute): AttributeMeaning {
    AttributeMeaning(DecodeString(d, a.key), a.value, DecodeString(d, a.unit))
  }

  function DecodeAttribute(d: Dictionary, i: nat): AttributeMeaning {
    if i < |d.attributes| then ReadAttribute(d, d.attributes[i]) else AttributeMeaning("", NoValue, "")
  }

  function DecodeAttributes(d: Dictionary, indices: seq<nat>): (r: seq<AttributeMeaning>)
    ensures |r| == |indices|
  {
    seq(|indices|, i requires 0 <= i < |indices| => DecodeAttribute(d, indices[i]))
  }

  /** The GNU build id among a mapping's attributes, empty when there is none. */
  function BuildIdOf(attributes: seq<AttributeMeaning>): string {
    if attributes == [] then ""
    else
      var a := attributes[0];
      if a.key == GNU_BUILD_ID && a.value.StringValue? then a.value.text else BuildIdOf(attributes[1..])
  }

  function ReadMapping(d: Dictionary, m: OMapping): MappingMeaning {
    MappingMeaning(m.memoryStart, m.memoryLimit, m.fileOffset, DecodeString(d, m.filename),
                   BuildIdOf(DecodeAttributes(d, m.attributes)))
  }

  function DecodeMapping(d: Dictionary, i: nat): Option<MappingMeaning> {
    if 0 < i < |d.mappings| then Some(ReadMapping(d, d.mappings[i])) else None
  }

  function ReadFunction(d: Dictionary, f: OFunction): FunctionMeaning {
    FunctionMeaning(DecodeString(d, f.name), DecodeString(d, f.systemName), DecodeString(d, f.filename), f.startLine)
  }

  function DecodeFunction(d: Dictionary, i: nat): Option<FunctionMeaning> {
    if 0 < i < |d.functions| then Some(ReadFunction(d, d.functions[i])) else None
  }

  function DecodeLine(d: Dictionary, l: OLine): LineMeaning {
    LineMeaning(DecodeFunction(d, l.function_), l.line, l.column)
  }

  function DecodeLines(d: Dictionary, ls: seq<OLine>): (r: seq<LineMeaning>)
    ensures |r| == |ls|
  {
    seq(|ls|, i requires 0 <= i < |ls| => DecodeLine(d, ls[i]))
  }

  function DecodeLocation(d: Dictionary, i: nat): LocationMeaning
    requires i < |d.locations|
  {
    var l := d.locations[i];
    LocationMeaning(l.address, DecodeMapping(d, l.mapping), DecodeLines(d, l.lines))
  }

  function DecodeLocations(d: Dictionary, indices: seq<nat>): (r: seq<LocationMeaning>)
    requires forall i :: 0 <= i < |indices| ==> indices[i] < |d.locations|
    ensures |r| == |indices|
  {
    seq(|indices|, i requires 0 <= i < |indices| => DecodeLocation(d, indices[i]))
  }

  function DecodeStack(d: Dictionary, i: nat): seq<LocationMeaning>
    requires i < |d.stacks| && forall k :: 0 <= k < |d.stacks[i]| ==> d.stacks[i][k] < |d.locations|
  {
    DecodeLocations(d, d.stacks[i])
  }

  /** A label as an attribute. */
  function AttributeOf(l: LabelMeaning): AttributeMeaning {
    match l
    case StringLabel(key, value) => AttributeMeaning(key, StringValue(value), "")
    case NumberLabel(key, num, unit) => AttributeMeaning(key, IntValue(num), unit)
  }

  function AttributesOf(labels: seq<LabelMeaning>): (r: seq<AttributeMeaning>)
    ensures |r| == |labels|
  {
    seq(|labels|, i requires 0 <= i < |labels| => AttributeOf(labels[i]))
  }

  /** The label an attribute stands for. */
  function LabelOf(a: AttributeMeaning): Option<LabelMeaning> {
    match a.value
    case StringValue(text) => if a.unit == "" then Some(StringLabel(a.key, text)) else None
    case IntValue(num) => Some(NumberLabel(a.key, num, a.unit))
    case _ => None
  }

  /** No label is lost by writing it as an attribute: it reads back as it was. */
  lemma LabelRead(l: LabelMeaning)
    ensures LabelOf(AttributeOf(l)) == Some(l)
  {
  }

  function LabelsOf(attributes: seq<AttributeMeaning>): seq<LabelMeaning> {
    if attributes == [] then []
    else
      var n := |attributes| - 1;
      var l := LabelOf(attributes[n]);
      LabelsOf(attributes[..n]) + (if l.Some? then [l.value] else [])
  }

  lemma {:induction false} LabelsRead(labels: seq<LabelMeaning>)
    ensures LabelsOf(AttributesOf(labels)) == labels
  {
    hide AttributeOf, LabelOf;
    if labels != [] {
      var n := |labels| - 1;
      assert AttributesOf(labels)[..n] == AttributesOf(labels[..n]);
      LabelsRead(labels[..n]);
      LabelRead(labels[n]);
    }
  }

  // Growing dictionaries.

  predicate Extends(d: Dictionary, e: Dictionary) {
    && d.strings <= e.strings && d.mappings <= e.mappings && d.locations <= e.locations
    && d.functions <= e.functions && d.attributes <= e.attributes && d.stacks <= e.stacks
  }

  predicate AttributeIn(d: Dictionary, a: OAttribute) {
    a.key < |d.strings| && a.unit < |d.strings|
  }

  predicate MappingIn(d: Dictionary, m: OMapping) {
    m.filename < |d.strings| && forall k :: 0 <= k < |m.attributes| ==> m.attributes[k] < |d.attributes|
  }

  predicate FunctionIn(d: Dictionary, f: OFunction) {
    f.name < |d.strings| && f.systemName < |d.strings| && f.filename < |d.strings|
  }

  predicate LinesIn(d: Dictionary, ls: seq<OLine>) {
    forall k :: 0 <= k < |ls| ==> ls[k].function_ < |d.functions|
  }

  predicate LocationIn(d: Dictionary, l: OLocation) {
    l.mapping < |d.mappings| && LinesIn(d, l.lines)
  }

  predicate StackIn(d: Dictionary, s: seq<nat>) {
    forall k :: 0 <= k < |s| ==> 0 < s[k] < |d.locations|
  }

  /** No table is empty and no index points outside its table. */
  predicate WellFormed(d: Dictionary) {
    && d.strings != [] && d.mappings != [] && d.locations != [] && d.functions != []
    && d.attributes != [] && d.stacks != []
    && (forall i :: 0 <= i < |d.attributes| ==> AttributeIn(d, d.attributes[i]))
    && (forall i :: 0 <= i < |d.mappings| ==> MappingIn(d, d.mappings[i]))
    && (forall i :: 0 <= i < |d.functions| ==> FunctionIn(d, d.functions[i]))
    && (forall i :: 0 <= i < |d.locations| ==> LocationIn(d, d.locations[i]))
    && (forall i :: 0 <= i < |d.stacks| ==> StackIn(d, d.stacks[i]))
  }

  lemma ExtendsTrans(d: Dictionary, e: Dictionary, f: Dictionary)
    requires Extends(d, e) && Extends(e, f)
    ensures Extends(d, f)
  {
  }

  lemma ExtendsSelf(d: Dictionary)
    ensures Extends(d, d)
  {
  }

  lemma AttributeStable(d: Dictionary, e: Dictionary, i: nat)
    requires WellFormed(d) && Extends(d, e) && i < |d.attributes|
    ensures DecodeAttribute(e, i) == DecodeAttribute(d, i)
  {
    assert AttributeIn(d, d.attributes[i]);
  }

  lemma AttributesStable(d: Dictionary, e: Dictionary, attributes: seq<nat>)
    requires WellFormed(d) && Extends(d, e)
    requires forall k :: 0 <= k < |attributes| ==> attributes[k] < |d.attributes|
    ensures DecodeAttributes(e, attributes) == DecodeAttributes(d, attributes)
  {
    forall k | 0 <= k < |attributes|
      ensures DecodeAttribute(e, attributes[k]) == DecodeAttribute(d, attributes[k])
    {
      AttributeStable(d, e, attributes[k]);
    }
  }

  lemma MappingStable(d: Dictionary, e: Dictionary, i: nat)
    requires WellFormed(d) && Extends(d, e) && i < |d.mappings|
    ensures DecodeMapping(e, i) == DecodeMapping(d, i)
  {
    assert MappingIn(d, d.mappings[i]);
    AttributesStable(d, e, d.mappings[i].attributes);
  }

  lemma FunctionStable(d: Dictionary, e: Dictionary, i: nat)
    requires WellFormed(d) && Extends(d, e) && i < |d.functions|
    ensures DecodeFunction(e, i) == DecodeFunction(d, i)
  {
    assert FunctionIn(d, d.functions[i]);
  }

  lemma LinesStable(d: Dictionary, e: Dictionary, ls: seq<OLine>)
    requires WellFormed(d) && Extends(d, e) && LinesIn(d, ls)
    ensures LinesIn(e, ls) && DecodeLines(e, ls) == DecodeLines(d, ls)
  {
    forall k | 0 <= k < |ls|
      ensures DecodeLine(e, ls[k]) == DecodeLine(d, ls[k])
    {
      FunctionStable(d, e, ls[k].function_);
    }
  }

  lemma LocationStable(d: Dictionary, e: Dictionary, i: nat)
    requires WellFormed(d) && Extends(d, e) && i < |d.locations|
    ensures DecodeLocation(e, i) == DecodeLocation(d, i)
  {
    assert LocationIn(d, d.locations[i]);
    LinesStable(d, e, d.locations[i].lines);
    MappingStable(d, e, d.locations[i].mapping);
  }

  lemma LocationsStable(d: Dictionary, e: Dictionary, s: seq<nat>)
    requires WellFormed(d) && Extends(d, e) && StackIn(d, s)
    ensures StackIn(e, s) && DecodeLocations(e, s) == DecodeLocations(d, s)
  {
    forall k | 0 <= k < |s|
      ensures DecodeLocation(e, s[k]) == DecodeLocation(d, s[k])
    {
      LocationStable(d, e, s[k]);
    }
  }

  /** A stack keeps its meaning while the dictionary grows. */
  lemma StackStable(d: Dictionary, e: Dictionary, i: nat)
    requires WellFormed(d) && Extends(d, e) && i < |d.stacks|
    ensures StackIn(d, d.stacks[i]) && StackIn(e, e.stacks[i]) && DecodeStack(e, i) == DecodeStack(d, i)
  {
    assert StackIn(d, d.stacks[i]);
    LocationsStable(d, e, d.stacks[i]);
  }

  // Cache keys of attributes.

  const DIGITS := "0123456789"

  /** `format!("{n}")` for a non-negative number. */
  function Digits(n: nat): (s: string)
    ensures s != []
  {
    if n < 10 then [DIGITS[n]] else Digits(n / 10) + [DIGITS[n % 10]]
  }

  function Decimal(n: int): string {
    if n < 0 then "-" + Digits(-n) else Digits(n)
  }

  predicate NoColon(s: string) {
    forall i :: 0 <= i < |s| ==> s[i] != ':'
  }

  predicate OnlyDigits(s: string) {
    forall i :: 0 <= i < |s| ==> '0' <= s[i] <= '9'
  }

  lemma {:induction false} DigitsAreDigits(n: nat)
    ensures OnlyDigits(Digits(n))
  {
    if n >= 10 {
      DigitsAreDigits(n / 10);
    }
  }

  lemma {:induction false} DigitsInjective(m: nat, n: nat)
    requires Digits(m) == Digits(n)
    ensures m == n
  {
    var a, b := Digits(m), Digits(n);
    assert a[|a| - 1] == DIGITS[m % 10] && b[|b| - 1] == DIGITS[n % 10];
    assert m % 10 == n % 10;
    if m >= 10 && n >= 10 {
      assert Digits(m / 10) == a[..|a| - 1] && Digits(n / 10) == b[..|b| - 1];
      DigitsInjective(m / 10, n / 10);
    }
  }

  lemma DecimalInjective(m: int, n: int)
    requires Decimal(m) == Decimal(n)
    ensures m == n
  {
    DigitsAreDigits(if m < 0 then -m else m);
    DigitsAreDigits(if n < 0 then -n else n);
    assert (m < 0) == (Decimal(m)[0] == '-') && (n < 0) == (Decimal(n)[0] == '-');
    if m < 0 {
      assert Digits(-m) == Decimal(m)[1..] && Digits(-n) == Decimal(n)[1..];
      DigitsInjective(-m, -n);
    } else {
      DigitsInjective(m, n);
    }
  }

  function FirstColon(s: string): nat {
    if s == [] || s[0] == ':' then 0 else 1 + FirstColon(s[1..])
  }

  lemma {:induction false} FirstColonAt(a: string, b: string)
    requires NoColon(a)
    ensures FirstColon(a + ":" + b) == |a|
  {
    if a != [] {
      FirstColonAt(a[1..], b);
      assert (a + ":" + b)[1..] == a[1..] + ":" + b;
    }
  }

  lemma ColonSplits(a: string, b: string, c: string, e: string)
    requires NoColon(a) && NoColon(c) && a + ":" + b == c + ":" + e
    ensures a == c && b == e
  {
    var x, y := a + ":" + b, c + ":" + e;
    FirstColonAt(a, b);
    FirstColonAt(c, e);
    assert a == x[..|a|] && c == y[..|c|];
    assert b == x[|a| + 1..] && e == y[|c| + 1..];
  }

  /** The second half of an attribute's cache key. */
  function CacheText(value: AttributeValue, unit: string): string {
    match value
    case StringValue(text) => "s:" + text
    case BoolValue(flag) => "b:" + (if flag then "true" else "false")
    case IntValue(number) => "i:" + (Decimal(number) + ":" + unit)
    case NoValue => ""
  }

  /** Only numbers carry a unit. */
  predicate IsAttribute(a: AttributeMeaning) {
    !a.value.NoValue? && (!a.value.IntValue? ==> a.unit == "")
  }

  /** The kind of a value can be read off the first character of its text. */
  lemma CacheTextKind(value: AttributeValue, unit: string)
    requires !value.NoValue?
    ensures |CacheText(value, unit)| >= 2
    ensures CacheText(value, unit)[0] == (if value.StringValue? then 's' else if value.BoolValue? then 'b' else 'i')
    ensures value.StringValue? ==> CacheText(value, unit)[2..] == value.text
    ensures value.BoolValue? ==> CacheText(value, unit)[2..] == if value.flag then "true" else "false"
    ensures value.IntValue? ==> CacheText(value, unit)[2..] == Decimal(value.number) + ":" + unit
  {
    hide Digits, Decimal;
    match value
    case StringValue(text) => assert ("s:" + text)[2..] == text;
    case BoolValue(flag) =>
    case IntValue(number) =>
      var rest := Decimal(number) + ":" + unit;
      assert ("i:" + rest)[2..] == rest;
    case NoValue =>
  }

  lemma NumbersSplit(m: int, u: string, n: int, v: string)
    requires Decimal(m) + ":" + u == Decimal(n) + ":" + v
    ensures m == n && u == v
  {
    DigitsAreDigits(if m < 0 then -m else m);
    DigitsAreDigits(if n < 0 then -n else n);
    ColonSplits(Decimal(m), u, Decimal(n), v);
    DecimalInjective(m, n);
  }

  /** Different attributes never share a cache key. */
  lemma CacheKeyInjective(a: AttributeMeaning, b: AttributeMeaning)
    requires IsAttribute(a) && IsAttribute(b)
    requires a.key == b.key && CacheText(a.value, a.unit) == CacheText(b.value, b.unit)
    ensures a == b
  {
    hide Digits, Decimal, CacheText;
    CacheTextKind(a.value, a.unit);
    CacheTextKind(b.value, b.unit);
    if a.value.BoolValue? {
      assert "true"[0] == 't' && "false"[0] == 'f';
    } else if a.value.IntValue? {
      NumbersSplit(a.value.number, a.unit, b.value.number, b.unit);
    }
  }

  // The index maps that keep every entry single.

  datatype LocationKey = LocationKey(address: u64, mapping: nat, lines: seq<OLine>)

  datatype Caches = Caches(
    strings: map<string, nat>, attributes: map<(string, string), nat>, mappings: map<MappingMeaning, nat>,
    functions: map<FunctionMeaning, nat>, locations: map<LocationKey, nat>, stacks: map<seq<nat>, nat>)

  const EMPTY_CACHES := Caches(map["" := 0], map[], map[], map[], map[], map[])

  function AttributeKeys(d: Dictionary): seq<(string, string)> {
    seq(|d.attributes|, i requires 0 <= i < |d.attributes| =>
      var a := ReadAttribute(d, d.attributes[i]); (a.key, CacheText(a.value, a.unit)))
  }

  function MappingKeys(d: Dictionary): seq<MappingMeaning> {
    seq(|d.mappings|, i requires 0 <= i < |d.mappings| => ReadMapping(d, d.mappings[i]))
  }

  function FunctionKeys(d: Dictionary): seq<FunctionMeaning> {
    seq(|d.functions|, i requires 0 <= i < |d.functions| => ReadFunction(d, d.functions[i]))
  }

  function LocationKeys(d: Dictionary): seq<LocationKey> {
    seq(|d.locations|, i requires 0 <= i < |d.locations| =>
      LocationKey(d.locations[i].address, d.locations[i].mapping, d.locations[i].lines))
  }

  /** The cache is exactly the inverse of the table's keys from `start` on. */
  predicate IndexOf<K>(keys: seq<K>, start: nat, cache: map<K, nat>) {
    && (forall i :: start <= i < |keys| ==> keys[i] in cache && cache[keys[i]] == i)
    && (forall k :: k in cache ==> start <= cache[k] < |keys| && keys[cache[k]] == k)
  }

  predicate Proper(d: Dictionary) {
    forall i :: 0 < i < |d.attributes| ==> IsAttribute(ReadAttribute(d, d.attributes[i]))
  }

  predicate Indexed(d: Dictionary, c: Caches) {
    && WellFormed(d)
    && d.strings[0] == "" && IndexOf(d.strings, 0, c.strings)
    && Proper(d) && IndexOf(AttributeKeys(d), 1, c.attributes)
    && IndexOf(MappingKeys(d), 1, c.mappings)
    && IndexOf(FunctionKeys(d), 1, c.functions)
    && IndexOf(LocationKeys(d), 1, c.locations)
    && IndexOf(d.stacks, 1, c.stacks)
  }

  lemma IndexedFacts(d: Dictionary, c: Caches)
    requires Indexed(d, c)
    ensures WellFormed(d) && d.strings != [] && d.strings[0] == "" && 0 < |d.mappings| && 0 < |d.functions|
    ensures DecodeMapping(d, 0) == None && DecodeFunction(d, 0) == None
  {
  }

  lemma IndexPush<K>(keys: seq<K>, start: nat, cache: map<K, nat>, k: K)
    requires IndexOf(keys, start, cache) && k !in cache && start <= |keys|
    ensures IndexOf(keys + [k], start, cache[k := |keys|])
  {
  }

  lemma AttributesRead(d: Dictionary, e: Dictionary)
    requires WellFormed(d) && Extends(d, e)
    ensures AttributeKeys(d) <= AttributeKeys(e)
    ensures forall i :: 0 <= i < |d.attributes| ==>
      ReadAttribute(e, e.attributes[i]) == ReadAttribute(d, d.attributes[i])
  {
    hide CacheText;
    forall i | 0 <= i < |d.attributes|
      ensures ReadAttribute(e, e.attributes[i]) == ReadAttribute(d, d.attributes[i])
    {
      AttributeStable(d, e, i);
    }
  }

  lemma MappingsRead(d: Dictionary, e: Dictionary)
    requires WellFormed(d) && Extends(d, e)
    ensures MappingKeys(d) <= MappingKeys(e)
  {
    forall i | 0 <= i < |d.mappings|
      ensures ReadMapping(e, e.mappings[i]) == ReadMapping(d, d.mappings[i])
    {
      assert MappingIn(d, d.mappings[i]);
      AttributesStable(d, e, d.mappings[i].attributes);
    }
  }

  lemma FunctionsRead(d: Dictionary, e: Dictionary)
    requires WellFormed(d) && Extends(d, e)
    ensures FunctionKeys(d) <= FunctionKeys(e)
  {
    forall i | 0 <= i < |d.functions|
      ensures ReadFunction(e, e.functions[i]) == ReadFunction(d, d.functions[i])
    {
      assert FunctionIn(d, d.functions[i]);
    }
  }

  /** Growing some tables changes no key of the entries already there. */
  lemma KeysGrow(d: Dictionary, e: Dictionary)
    requires WellFormed(d) && Extends(d, e)
    ensures AttributeKeys(d) <= AttributeKeys(e) && MappingKeys(d) <= MappingKeys(e)
    ensures FunctionKeys(d) <= FunctionKeys(e) && LocationKeys(d) <= LocationKeys(e)
    ensures |d.attributes| == |e.attributes| && Proper(d) ==> Proper(e)
    ensures |d.attributes| == |e.attributes| ==> AttributeKeys(d) == AttributeKeys(e)
    ensures |d.mappings| == |e.mappings| ==> MappingKeys(d) == MappingKeys(e)
    ensures |d.functions| == |e.functions| ==> FunctionKeys(d) == FunctionKeys(e)
    ensures |d.locations| == |e.locations| ==> LocationKeys(d) == LocationKeys(e)
  {
    hide CacheText, ReadAttribute, ReadFunction, ReadMapping;
    AttributesRead(d, e);
    MappingsRead(d, e);
    FunctionsRead(d, e);
  }

  lemma PushString(d: Dictionary, c: Caches, s: string)
    requires Indexed(d, c) && s !in c.strings
    ensures Extends(d, d.(strings := d.strings + [s]))
    ensures Indexed(d.(strings := d.strings + [s]), c.(strings := c.strings[s := |d.strings|]))
  {
    hide AttributeKeys, MappingKeys, FunctionKeys, LocationKeys;
    KeysGrow(d, d.(strings := d.strings + [s]));
    IndexPush(d.strings, 0, c.strings, s);
  }

  lemma PushAttribute(d: Dictionary, c: Caches, a: OAttribute)
    requires Indexed(d, c) && AttributeIn(d, a) && IsAttribute(ReadAttribute(d, a))
    requires (ReadAttribute(d, a).key, CacheText(a.value, ReadAttribute(d, a).unit)) !in c.attributes
    ensures Extends(d, d.(attributes := d.attributes + [a]))
    ensures Indexed(d.(attributes := d.attributes + [a]),
                    c.(attributes := c.attributes[(ReadAttribute(d, a).key, CacheText(a.value, ReadAttribute(d, a).unit)) := |d.attributes|]))
  {
    hide CacheText, IsAttribute;
    var e := d.(attributes := d.attributes + [a]);
    var key := (ReadAttribute(d, a).key, CacheText(a.value, ReadAttribute(d, a).unit));
    KeysGrow(d, e);
    AttributesRead(d, e);
    assert ReadAttribute(e, a) == ReadAttribute(d, a);
    assert AttributeKeys(e) == AttributeKeys(d) + [key];
    IndexPush(AttributeKeys(d), 1, c.attributes, key);
  }

  lemma PushMapping(d: Dictionary, c: Caches, m: OMapping)
    requires Indexed(d, c) && MappingIn(d, m) && ReadMapping(d, m) !in c.mappings
    ensures Extends(d, d.(mappings := d.mappings + [m]))
    ensures Indexed(d.(mappings := d.mappings + [m]), c.(mappings := c.mappings[ReadMapping(d, m) := |d.mappings|]))
  {
    hide AttributeKeys, FunctionKeys, LocationKeys;
    var e := d.(mappings := d.mappings + [m]);
    KeysGrow(d, e);
    AttributesStable(d, e, m.attributes);
    assert MappingKeys(e) == MappingKeys(d) + [ReadMapping(d, m)];
    IndexPush(MappingKeys(d), 1, c.mappings, ReadMapping(d, m));
  }

  lemma NewMapping(d: Dictionary, m: OMapping)
    requires WellFormed(d) && MappingIn(d, m)
    ensures ReadMapping(d.(mappings := d.mappings + [m]), m) == ReadMapping(d, m)
    ensures DecodeAttributes(d.(mappings := d.mappings + [m]), m.attributes) == DecodeAttributes(d, m.attributes)
  {
    AttributesStable(d, d.(mappings := d.mappings + [m]), m.attributes);
  }

  lemma PushFunction(d: Dictionary, c: Caches, f: OFunction)
    requires Indexed(d, c) && FunctionIn(d, f) && ReadFunction(d, f) !in c.functions
    ensures Extends(d, d.(functions := d.functions + [f]))
    ensures Indexed(d.(functions := d.functions + [f]), c.(functions := c.functions[ReadFunction(d, f) := |d.functions|]))
  {
    hide AttributeKeys, MappingKeys, LocationKeys;
    var e := d.(functions := d.functions + [f]);
    KeysGrow(d, e);
    assert FunctionKeys(e) == FunctionKeys(d) + [ReadFunction(d, f)];
    IndexPush(FunctionKeys(d), 1, c.functions, ReadFunction(d, f));
  }

  lemma PushLocation(d: Dictionary, c: Caches, l: OLocation)
    requires Indexed(d, c) && LocationIn(d, l) && LocationKey(l.address, l.mapping, l.lines) !in c.locations
    ensures Extends(d, d.(locations := d.locations + [l]))
    ensures Indexed(d.(locations := d.locations + [l]),
                    c.(locations := c.locations[LocationKey(l.address, l.mapping, l.lines) := |d.locations|]))
  {
    hide AttributeKeys, MappingKeys, FunctionKeys;
    var e := d.(locations := d.locations + [l]);
    KeysGrow(d, e);
    assert LocationKeys(e) == LocationKeys(d) + [LocationKey(l.address, l.mapping, l.lines)];
    IndexPush(LocationKeys(d), 1, c.locations, LocationKey(l.address, l.mapping, l.lines));
  }

  lemma NewLocation(d: Dictionary, l: OLocation)
    requires WellFormed(d) && LocationIn(d, l)
    ensures DecodeLocation(d.(locations := d.locations + [l]), |d.locations|)
         == LocationMeaning(l.address, DecodeMapping(d, l.mapping), DecodeLines(d, l.lines))
  {
    var e := d.(locations := d.locations + [l]);
    MappingStable(d, e, l.mapping);
    LinesStable(d, e, l.lines);
  }

  lemma PushStack(d: Dictionary, c: Caches, s: seq<nat>)
    requires Indexed(d, c) && StackIn(d, s) && s !in c.stacks
    ensures Extends(d, d.(stacks := d.stacks + [s]))
    ensures Indexed(d.(stacks := d.stacks + [s]), c.(stacks := c.stacks[s := |d.stacks|]))
  {
    hide AttributeKeys, MappingKeys, FunctionKeys, LocationKeys;
    KeysGrow(d, d.(stacks := d.stacks + [s]));
    IndexPush(d.stacks, 1, c.stacks, s);
  }

  lemma AttributeHit(d: Dictionary, c: Caches, a: AttributeMeaning)
    requires Indexed(d, c) && IsAttribute(a) && (a.key, CacheText(a.value, a.unit)) in c.attributes
    ensures 0 < c.attributes[(a.key, CacheText(a.value, a.unit))] < |d.attributes|
    ensures DecodeAttribute(d, c.attributes[(a.key, CacheText(a.value, a.unit))]) == a
  {
    hide CacheText, IsAttribute;
    var cacheKey := (a.key, CacheText(a.value, a.unit));
    var i := c.attributes[cacheKey];
    assert AttributeKeys(d)[i] == cacheKey;
    CacheKeyInjective(a, ReadAttribute(d, d.attributes[i]));
  }

  lemma MappingHit(d: Dictionary, c: Caches, m: MappingMeaning)
    requires Indexed(d, c) && m in c.mappings
    ensures 0 < c.mappings[m] < |d.mappings| && DecodeMapping(d, c.mappings[m]) == Some(m)
  {
    assert MappingKeys(d)[c.mappings[m]] == m;
  }

  lemma FunctionHit(d: Dictionary, c: Caches, f: FunctionMeaning)
    requires Indexed(d, c) && f in c.functions
    ensures 0 < c.functions[f] < |d.functions| && DecodeFunction(d, c.functions[f]) == Some(f)
  {
    assert FunctionKeys(d)[c.functions[f]] == f;
  }

  lemma LocationHit(d: Dictionary, c: Caches, key: LocationKey)
    requires Indexed(d, c) && key in c.locations
    ensures 0 < c.locations[key] < |d.locations|
    ensures DecodeLocation(d, c.locations[key])
         == LocationMeaning(key.address, DecodeMapping(d, key.mapping), DecodeLines(d, key.lines))
  {
    assert LocationKeys(d)[c.locations[key]] == key;
  }

  // No two entries of a table mean the same.

  lemma FunctionUnique(d: Dictionary, c: Caches, i: nat, j: nat)
    requires Indexed(d, c) && i < |d.functions| && j < |d.functions|
    requires DecodeFunction(d, i) == DecodeFunction(d, j)
    ensures i == j
  {
    if 0 < i && 0 < j {
      assert FunctionKeys(d)[i] == FunctionKeys(d)[j];
    }
  }

  lemma MappingUnique(d: Dictionary, c: Caches, i: nat, j: nat)
    requires Indexed(d, c) && i < |d.mappings| && j < |d.mappings|
    requires DecodeMapping(d, i) == DecodeMapping(d, j)
    ensures i == j
  {
    if 0 < i && 0 < j {
      assert MappingKeys(d)[i] == MappingKeys(d)[j];
    }
  }

  lemma LinesUnique(d: Dictionary, c: Caches, a: seq<OLine>, b: seq<OLine>)
    requires Indexed(d, c) && LinesIn(d, a) && LinesIn(d, b)
    requires DecodeLines(d, a) == DecodeLines(d, b)
    ensures a == b
  {
    assert |a| == |b|;
    forall k | 0 <= k < |a|
      ensures a[k] == b[k]
    {
      assert DecodeLines(d, a)[k] == DecodeLine(d, a[k]) && DecodeLines(d, b)[k] == DecodeLine(d, b[k]);
      FunctionUnique(d, c, a[k].function_, b[k].function_);
    }
  }

  lemma LocationUnique(d: Dictionary, c: Caches, i: nat, j: nat)
    requires Indexed(d, c) && 0 < i < |d.locations| && 0 < j < |d.locations|
    requires DecodeLocation(d, i) == DecodeLocation(d, j)
    ensures i == j
  {
    var a, b := d.locations[i], d.locations[j];
    assert LocationIn(d, a) && LocationIn(d, b);
    LinesUnique(d, c, a.lines, b.lines);
    MappingUnique(d, c, a.mapping, b.mapping);
    assert LocationKeys(d)[i] == LocationKeys(d)[j];
  }

  /** Different stack indices stand for different stacks. */
  lemma StackUnique(d: Dictionary, c: Caches, i: nat, j: nat)
    requires Indexed(d, c) && 0 < i < |d.stacks| && 0 < j < |d.stacks|
    requires StackIn(d, d.stacks[i]) && StackIn(d, d.stacks[j])
    requires DecodeStack(d, i) == DecodeStack(d, j)
    ensures i == j
  {
    var a, b := d.stacks[i], d.stacks[j];
    assert |a| == |b|;
    forall k | 0 <= k < |a|
      ensures a[k] == b[k]
    {
      assert DecodeStack(d, i)[k] == DecodeLocation(d, a[k]) && DecodeStack(d, j)[k] == DecodeLocation(d, b[k]);
      LocationUnique(d, c, a[k], b[k]);
    }
    assert a == b;
  }

  /** Different attribute lists stand for different label lists. */
  lemma AttributesUnique(d: Dictionary, c: Caches, a: seq<nat>, b: seq<nat>)
    requires Indexed(d, c)
    requires forall k :: 0 <= k < |a| ==> 0 < a[k] < |d.attributes|
    requires forall k :: 0 <= k < |b| ==> 0 < b[k] < |d.attributes|
    requires DecodeAttributes(d, a) == DecodeAttributes(d, b)
    ensures a == b
  {
    assert |a| == |b|;
    forall k | 0 <= k < |a|
      ensures a[k] == b[k]
    {
      assert DecodeAttributes(d, a)[k] == DecodeAttributes(d, b)[k];
      assert AttributeKeys(d)[a[k]] == AttributeKeys(d)[b[k]];
    }
  }
}

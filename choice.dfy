/** The choice display of the consensus-feedback UI: the option list, the
    count of personal opinions per choice shown to the consensus reviewer,
    the preselected value, and the rule that reports a selection as valid. */
module Choice {
  import opened Wrappers
  import opened Strings

  /** A JavaScript `number | string`; numbers are integers here. */
  datatype Value = Num(n: int) | Str(s: string)

  /** A choice (`PersonalChoice` when it maps to a consensual value). */
  datatype ChoiceItem = ChoiceItem(value: Value, caption: string, color: Option<string>, consensualMapsTo: Option<Value>)

  /** An entry of the `personal` or `consensual` option list. */
  datatype ChoiceDef = Caption(caption: string) | Item(item: ChoiceItem)

  /** `normalizeChoiceOption`: a bare caption takes its index as its value. */
  function Normalize(def: ChoiceDef, index: nat): ChoiceItem
  {
    match def
    case Caption(caption) => ChoiceItem(Num(index), caption, None, None)
    case Item(item) => item
  }

  function NormalizeAll(defs: seq<ChoiceDef>): (r: seq<ChoiceItem>)
    ensures |r| == |defs|
    ensures forall i :: 0 <= i < |defs| && defs[i].Caption? ==> r[i] == ChoiceItem(Num(i), defs[i].caption, None, None)
    ensures forall i :: 0 <= i < |defs| && defs[i].Item? ==> r[i] == defs[i].item
  {
    seq(|defs|, i requires 0 <= i < |defs| => Normalize(defs[i], i))
  }

  /** Bare captions get distinct values. */
  lemma CaptionValuesDistinct(defs: seq<ChoiceDef>, i: nat, j: nat)
    requires i < j < |defs| && defs[i].Caption? && defs[j].Caption?
    ensures NormalizeAll(defs)[i].value != NormalizeAll(defs)[j].value
  {
  }

  /** `buttons`: the consensual list in consensual mode when there is one (an
      empty list counts), and the personal list otherwise. */
  function Buttons(consensual: bool, consensualButtons: Option<seq<ChoiceDef>>, personalButtons: seq<ChoiceDef>)
    : (r: seq<ChoiceItem>)
    ensures consensual && consensualButtons.Some? ==> r == NormalizeAll(consensualButtons.value)
    ensures !consensual || consensualButtons.None? ==> r == NormalizeAll(personalButtons)
  {
    NormalizeAll(if consensual && consensualButtons.Some? then consensualButtons.value else personalButtons)
  }

  // ---------------------------------------------------------------------------
  // Loose equality, as `p.data == def.value` compares

  function TrimEnd(s: string): (t: string)
    ensures |t| <= |s| && t == s[..|t|]
  {
    if s != [] && IsJsSpace(s[|s| - 1]) then TrimEnd(s[..|s| - 1]) else s
  }

  /** `Number(s)` for the text forms an integer can take: surrounding white
      space, an optional sign, decimal digits; nothing but white space is 0,
      and any other text is `NaN` (`None`). */
  function StringToNumber(s: string): Option<int>
  {
    var t := TrimEnd(TrimStart(JsSpace, s));
    if t == [] then Some(0)
    else
      var signed := t[0] == '-' || t[0] == '+';
      var digits := if signed then t[1..] else t;
      if digits == [] || !AllDigits(digits) then None
      else if t[0] == '-' then Some(-(DigitsValue(digits) as int))
      else Some(DigitsValue(digits))
  }

  /** `a == b`: a number and a string compare as numbers. */
  predicate LooseEquals(a: Value, b: Value)
  {
    match (a, b)
    case (Num(x), Num(y)) => x == y
    case (Str(x), Str(y)) => x == y
    case (Num(x), Str(y)) => StringToNumber(y) == Some(x)
    case (Str(x), Num(y)) => StringToNumber(x) == Some(y)
  }

  /** A number and its decimal text are loosely equal, either way round. */
  lemma LooseEqualsNumberText(n: int)
    ensures LooseEquals(Num(n), Str(IntToString(n))) && LooseEquals(Str(IntToString(n)), Num(n))
  {
    NumberOfIntToString(n);
  }

  /** `Number` reads an integer's text back. */
  lemma NumberOfIntToString(n: int)
    ensures StringToNumber(IntToString(n)) == Some(n)
  {
    var s := IntToString(n);
    IntToStringTrimmed(n);
    if n < 0 {
      assert s[1..] == NatToString(-n);
      NatToStringValue(-n);
    } else {
      NatToStringValue(n);
    }
  }

  /** An integer's text has no white space to trim at either end. */
  lemma IntToStringTrimmed(n: int)
    ensures TrimEnd(TrimStart(JsSpace, IntToString(n))) == IntToString(n)
  {
    var s := IntToString(n);
    IntToStringUntrimmed(n, JsSpace);
    assert IsDigit(s[|s| - 1]);
    NotSpace(JsSpace, s[|s| - 1]);
  }

  // ---------------------------------------------------------------------------
  // personalCounts

  /** Choice `i` is the first whose value loosely equals `data`. */
  predicate FirstMatch(defs: seq<ChoiceItem>, data: Value, i: int)
  {
    0 <= i < |defs| && LooseEquals(data, defs[i].value)
    && forall j :: 0 <= j < i ==> !LooseEquals(data, defs[j].value)
  }

  /** There is at most one first match. */
  lemma FirstMatchUnique(defs: seq<ChoiceItem>, data: Value, i: int, j: int)
    requires FirstMatch(defs, data, i) && FirstMatch(defs, data, j)
    ensures i == j
  {
  }

  /** The first choice whose value loosely equals `data` (`Array.prototype.find`). */
  function FindChoice(defs: seq<ChoiceItem>, data: Value): (r: Option<ChoiceItem>)
    ensures r.Some? ==> exists i :: FirstMatch(defs, data, i) && defs[i] == r.value
    ensures r.None? ==> forall i :: 0 <= i < |defs| ==> !LooseEquals(data, defs[i].value)
  {
    if defs == [] then None
    else if LooseEquals(data, defs[0].value) then
      assert FirstMatch(defs, data, 0);
      Some(defs[0])
    else
      var r := FindChoice(defs[1..], data);
      if r.Some? then
        var i :| FirstMatch(defs[1..], data, i) && defs[1..][i] == r.value;
        assert FirstMatch(defs, data, i + 1);
        r
      else r
  }

  /** `pdef?.consensualMapsTo ?? p.data`: where an opinion is counted. */
  function FeedbackKey(personal: seq<ChoiceItem>, data: Value): (k: Value)
    ensures (exists i :: 0 <= i < |personal| && LooseEquals(data, personal[i].value)) || k == data
  {
    match FindChoice(personal, data)
    case Some(def) => if def.consensualMapsTo.Some? then def.consensualMapsTo.value else data
    case None => data
  }

  /** An opinion is counted under what the first matching personal choice maps
      to, and under its own value when that choice maps to nothing or no
      choice matches. */
  lemma FeedbackKeyOfFirstMatch(personal: seq<ChoiceItem>, data: Value, i: int)
    requires FirstMatch(personal, data, i)
    ensures FeedbackKey(personal, data)
            == if personal[i].consensualMapsTo.Some? then personal[i].consensualMapsTo.value else data
  {
    var j :| FirstMatch(personal, data, j) && personal[j] == FindChoice(personal, data).value;
    FirstMatchUnique(personal, data, i, j);
  }

  function FeedbackKeys(personal: seq<ChoiceItem>, opinions: seq<Value>): (keys: seq<Value>)
    ensures |keys| == |opinions| && forall i :: 0 <= i < |opinions| ==> keys[i] == FeedbackKey(personal, opinions[i])
  {
    seq(|opinions|, i requires 0 <= i < |opinions| => FeedbackKey(personal, opinions[i]))
  }

  /** The keys of `keys` in the order they first occur (a `Map`'s key order). */
  function FirstOccurrences(keys: seq<Value>): (order: seq<Value>)
    ensures forall k :: k in order <==> k in keys
    ensures forall i, j :: 0 <= i < j < |order| ==> order[i] != order[j]
  {
    if keys == [] then []
    else
      var before := FirstOccurrences(keys[..|keys| - 1]);
      var last := keys[|keys| - 1];
      assert keys == keys[..|keys| - 1] + [last];
      if last in before then before else before + [last]
  }

  /** A JavaScript `Map` from values to counts: its keys in insertion order
      and its entries. */
  datatype Counts = Counts(order: seq<Value>, count: map<Value, nat>)

  /** `Map.prototype.set`: a new key goes to the end of the order. */
  function MapSet(c: Counts, k: Value, n: nat): (r: Counts)
    ensures r.count == c.count[k := n]
    ensures r.order == if k in c.count then c.order else c.order + [k]
  {
    Counts(if k in c.count then c.order else c.order + [k], c.count[k := n])
  }

  /** `c` counts every key of `keys` once per occurrence. */
  ghost predicate Tallies(c: Counts, keys: seq<Value>)
  {
    c.order == FirstOccurrences(keys)
    && (forall k :: k in c.count <==> k in keys)
    && (forall k :: k in c.count ==> c.count[k] == multiset(keys)[k])
  }

  lemma TalliesStep(c: Counts, keys: seq<Value>, i: nat)
    requires i < |keys| && Tallies(c, keys[..i])
    ensures var fb := keys[i];
      Tallies(MapSet(c, fb, (if fb in c.count then c.count[fb] else 0) + 1), keys[..i + 1])
  {
    var fb := keys[i];
    var next := keys[..i + 1];
    assert next[..|next| - 1] == keys[..i];
    assert next == keys[..i] + [fb];
    assert multiset(next) == multiset(keys[..i]) + multiset{fb};
  }

  /** `personalCounts`: empty outside consensual mode; otherwise each opinion
      is counted under the key its personal choice maps to. */
  method PersonalCounts(consensual: bool, opinions: seq<Value>, personalButtons: seq<ChoiceDef>) returns (counts: Counts)
    ensures !consensual ==> counts == Counts([], map[])
    ensures consensual ==> Tallies(counts, FeedbackKeys(NormalizeAll(personalButtons), opinions))
  {
    counts := Counts([], map[]);
    if !consensual {
      return;
    }
    var personal := NormalizeAll(personalButtons);
    ghost var keys := FeedbackKeys(personal, opinions);
    assert keys[..0] == [];
    var i := 0;
    while i < |opinions|
      invariant 0 <= i <= |opinions|
      invariant Tallies(counts, keys[..i])
    {
      var fb := FeedbackKey(personal, opinions[i]);
      TalliesStep(counts, keys, i);
      counts := MapSet(counts, fb, (if fb in counts.count then counts.count[fb] else 0) + 1);
      i := i + 1;
    }
    assert keys[..i] == keys;
  }

  /** The sum of the counts of the keys of `order`, keys without a count adding 0. */
  function Total(order: seq<Value>, count: map<Value, nat>): nat
  {
    if order == [] then 0
    else Total(order[..|order| - 1], count) + (var k := order[|order| - 1]; if k in count then count[k] else 0)
  }

  /** The sum of the multiplicities in `m` of the keys of `order`. */
  function Multiplicities(order: seq<Value>, m: multiset<Value>): nat
  {
    if order == [] then 0 else Multiplicities(order[..|order| - 1], m) + m[order[|order| - 1]]
  }

  lemma {:induction false} TotalIsMultiplicities(order: seq<Value>, count: map<Value, nat>, m: multiset<Value>)
    requires forall k :: k in order ==> k in count && count[k] == m[k]
    ensures Total(order, count) == Multiplicities(order, m)
    decreases |order|
  {
    if order != [] {
      var init := order[..|order| - 1];
      assert forall k :: k in init ==> k in order;
      TotalIsMultiplicities(init, count, m);
    }
  }

  /** One more occurrence of `x` adds one to the sum exactly when `x` is listed. */
  lemma {:induction false} MultiplicitiesAddOne(order: seq<Value>, m: multiset<Value>, x: Value)
    requires forall i, j :: 0 <= i < j < |order| ==> order[i] != order[j]
    ensures Multiplicities(order, m + multiset{x}) == Multiplicities(order, m) + if x in order then 1 else 0
    decreases |order|
  {
    if order != [] {
      var init := order[..|order| - 1];
      MultiplicitiesAddOne(init, m, x);
      assert x in order <==> x in init || x == order[|order| - 1];
      assert x == order[|order| - 1] ==> x !in init;
    }
  }

  lemma {:induction false} FirstOccurrencesCover(keys: seq<Value>)
    ensures Multiplicities(FirstOccurrences(keys), multiset(keys)) == |keys|
    decreases |keys|
  {
    if keys != [] {
      var init, x := keys[..|keys| - 1], keys[|keys| - 1];
      assert keys == init + [x];
      assert multiset(keys) == multiset(init) + multiset{x};
      var before := FirstOccurrences(init);
      FirstOccurrencesCover(init);
      MultiplicitiesAddOne(before, multiset(init), x);
      if x !in before {
        assert multiset(init)[x] == 0;
        assert (before + [x])[..|before + [x]| - 1] == before;
      }
    }
  }

  /** Every key is counted, and the counts add up to the number of opinions. */
  lemma CountsCoverOpinions(c: Counts, keys: seq<Value>)
    requires Tallies(c, keys)
    ensures forall k :: k in keys ==> k in c.count && c.count[k] > 0
    ensures Total(c.order, c.count) == |keys|
  {
    TotalIsMultiplicities(c.order, c.count, multiset(keys));
    FirstOccurrencesCover(keys);
  }

  // ---------------------------------------------------------------------------
  // The initial selection and the feedback report

  /** `useState`'s initial value: the initial feedback outside consensual
      mode, and in consensual mode the only key when there is exactly one. */
  function InitialSelection(consensual: bool, initialFeedbackValue: Option<Value>, counts: Counts): (r: Option<Value>)
    ensures !consensual ==> r == initialFeedbackValue
    ensures consensual ==> (r.Some? <==> |counts.order| == 1) && (r.Some? ==> counts.order == [r.value])
  {
    if !consensual then initialFeedbackValue
    else if |counts.order| == 1 then Some(counts.order[0])
    else None
  }

  predicate AllAre(keys: seq<Value>, v: Value)
  {
    forall i :: 0 <= i < |keys| ==> keys[i] == v
  }

  lemma {:induction false} UnanimousFirstOccurrence(keys: seq<Value>, v: Value)
    requires keys != [] && AllAre(keys, v)
    ensures FirstOccurrences(keys) == [v]
    decreases |keys|
  {
    var init := keys[..|keys| - 1];
    if init != [] {
      assert AllAre(init, v);
      UnanimousFirstOccurrence(init, v);
    }
  }

  lemma SingleFirstOccurrence(keys: seq<Value>, v: Value)
    ensures FirstOccurrences(keys) == [v] <==> keys != [] && AllAre(keys, v)
  {
    if keys != [] && AllAre(keys, v) {
      UnanimousFirstOccurrence(keys, v);
    }
    if FirstOccurrences(keys) == [v] {
      assert v in keys;
      forall i | 0 <= i < |keys|
        ensures keys[i] == v
      {
        assert keys[i] in keys;
      }
    }
  }

  /** In consensual mode a value is preselected exactly when every opinion
      is counted under that same value. */
  lemma PreselectedIffUnanimous(counts: Counts, keys: seq<Value>, initialFeedbackValue: Option<Value>, v: Value)
    requires Tallies(counts, keys)
    ensures InitialSelection(true, initialFeedbackValue, counts) == Some(v) <==> keys != [] && AllAre(keys, v)
  {
    SingleFirstOccurrence(keys, v);
  }

  datatype FeedbackReport = Valid(value: Value) | Invalid(error: string)

  /** The validation effect: valid exactly when the selection is a number
      equal (`===`) to the value of some button. */
  function Report(selected: Option<Value>, buttons: seq<ChoiceItem>): (r: FeedbackReport)
    ensures r.Valid? <==> selected.Some? && selected.value.Num? && exists i :: 0 <= i < |buttons| && buttons[i].value == selected.value
    ensures r.Valid? ==> r.value == selected.value
    ensures r.Invalid? ==> r.error == "Not selected"
  {
    if selected.Some? && selected.value.Num? && (exists i :: 0 <= i < |buttons| && buttons[i].value == selected.value)
    then Valid(selected.value)
    else Invalid("Not selected")
  }

  /** A string selection never validates, whatever the buttons. */
  lemma StringNeverValid(s: string, buttons: seq<ChoiceItem>)
    ensures Report(Some(Str(s)), buttons).Invalid?
  {
  }

  /** A toggle button passes its own value, so pressing a button with a
      number value gives valid feedback. */
  lemma ToggleButtonSelectsValid(buttons: seq<ChoiceItem>, i: nat)
    requires i < |buttons| && buttons[i].value.Num?
    ensures Report(Some(buttons[i].value), buttons) == Valid(buttons[i].value)
  {
  }

  // ---------------------------------------------------------------------------
  // The drop-down

  /** The text an `<option value={...}>` carries. */
  function ValueText(v: Value): string
  {
    match v
    case Num(n) => IntToString(n)
    case Str(s) => s
  }

  /** The drop-down as written: it passes `ev.target.value`, the option's
      text. */
  function DropdownSelection(buttons: seq<ChoiceItem>, i: nat): (v: Value)
    requires i < |buttons|
    ensures v.Str?
  {
    Str(ValueText(buttons[i].value))
  }

  /** So no choice made in the drop-down is ever reported valid. */
  lemma DropdownNeverValid(buttons: seq<ChoiceItem>, i: nat)
    requires i < |buttons|
    ensures Report(Some(DropdownSelection(buttons, i)), buttons).Invalid?
  {
  }

  /** The first button whose value has the given text. */
  function ButtonWithText(buttons: seq<ChoiceItem>, text: string): (r: Option<nat>)
    ensures r.Some? ==> r.value < |buttons| && ValueText(buttons[r.value].value) == text
    ensures r.None? ==> forall i :: 0 <= i < |buttons| ==> ValueText(buttons[i].value) != text
  {
    if buttons == [] then None
    else if ValueText(buttons[0].value) == text then Some(0)
    else match ButtonWithText(buttons[1..], text)
      case Some(j) => Some(j + 1)
      case None => None
  }

  /** The drop-down as intended: the option's text is mapped back to the
      value of the button it belongs to. */
  function DropdownSelectionCorrected(buttons: seq<ChoiceItem>, text: string): (v: Value)
    ensures ValueText(v) == text
    ensures (exists j :: 0 <= j < |buttons| && ValueText(buttons[j].value) == text)
            ==> exists j :: 0 <= j < |buttons| && v == buttons[j].value
  {
    match ButtonWithText(buttons, text)
    case Some(j) => buttons[j].value
    case None => Str(text)
  }

  /** With number-valued buttons (as bare captions give), choosing any option
      in the corrected drop-down reports that option's value as valid. */
  lemma DropdownCorrectedValid(buttons: seq<ChoiceItem>, i: nat)
    requires i < |buttons| && forall j :: 0 <= j < |buttons| ==> buttons[j].value.Num?
    ensures Report(Some(DropdownSelectionCorrected(buttons, ValueText(buttons[i].value))), buttons)
            == Valid(buttons[i].value)
  {
    var text := ValueText(buttons[i].value);
    var j := ButtonWithText(buttons, text).value;
    assert ValueText(buttons[j].value) == text;
    IntToStringInjective(buttons[j].value.n, buttons[i].value.n);
  }
}

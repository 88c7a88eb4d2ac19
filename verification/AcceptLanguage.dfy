/** Choosing a language from an Accept-Language header (src/web/i18n.rs:33-72; weights as in
    section 12.4.2 of RFC 9110). Header text is ASCII. */
module AcceptLanguage {
  import opened Documents
  import opened Text
  import opened Localize

  // ----- Splitting and trimming -----

  function Split(s: string, c: char): (r: seq<string>)
    ensures r != []
  {
    if s == "" then [""]
    else
      var rest := Split(s[1..], c);
      if s[0] == c then [""] + rest else [[s[0]] + rest[0]] + rest[1..]
  }

  lemma {:induction false} SplitAfter(a: string, c: char, b: string)
    requires c !in a
    ensures Split(a + [c] + b, c) == [a] + Split(b, c)
  {
    var s := a + [c] + b;
    if a == "" {
      assert s[1..] == b;
    } else {
      SplitAfter(a[1..], c, b);
      assert s[1..] == a[1..] + [c] + b;
      assert [s[0]] + a[1..] == a;
    }
  }

  lemma {:induction false} SplitWhole(a: string, c: char)
    requires c !in a
    ensures Split(a, c) == [a]
  {
    if a != "" {
      SplitWhole(a[1..], c);
      assert [a[0]] + a[1..] == a;
    }
  }

  function TrimStart(s: string): string {
    if s != "" && IsSpace(s[0]) then TrimStart(s[1..]) else s
  }

  function TrimEnd(s: string): string {
    if s != "" && IsSpace(s[|s| - 1]) then TrimEnd(s[..|s| - 1]) else s
  }

  function Trim(s: string): string {
    TrimEnd(TrimStart(s))
  }

  predicate NoEdgeSpace(s: string) {
    s != "" ==> !IsSpace(s[0]) && !IsSpace(s[|s| - 1])
  }

  ghost predicate Blank(s: string) {
    forall i :: 0 <= i < |s| ==> IsSpace(s[i])
  }

  lemma {:induction false} TrimStartMeans(s: string) returns (a: string)
    ensures s == a + TrimStart(s) && Blank(a) && (TrimStart(s) != "" ==> !IsSpace(TrimStart(s)[0]))
  {
    a := "";
    if s != "" && IsSpace(s[0]) {
      var more := TrimStartMeans(s[1..]);
      a := [s[0]] + more;
      assert s == [s[0]] + s[1..];
    }
  }

  lemma {:induction false} TrimEndMeans(s: string) returns (b: string)
    ensures s == TrimEnd(s) + b && Blank(b) && (TrimEnd(s) != "" ==> !IsSpace(TrimEnd(s)[|TrimEnd(s)| - 1]))
  {
    b := "";
    if s != "" && IsSpace(s[|s| - 1]) {
      var more := TrimEndMeans(s[..|s| - 1]);
      b := more + [s[|s| - 1]];
      assert s == s[..|s| - 1] + [s[|s| - 1]];
    }
  }

  /** Trimming takes away blanks at both ends, and all of them. */
  lemma TrimMeans(s: string) returns (a: string, b: string)
    ensures s == a + Trim(s) + b && Blank(a) && Blank(b) && NoEdgeSpace(Trim(s))
  {
    a := TrimStartMeans(s);
    b := TrimEndMeans(TrimStart(s));
    assert Trim(s) != "" ==> Trim(s)[0] == TrimStart(s)[0];
    assert a + (Trim(s) + b) == a + Trim(s) + b;
  }

  // ----- Weights -----

  predicate AllZeros(s: string) {
    forall i :: 0 <= i < |s| ==> s[i] == '0'
  }

  /** Filled with zeros on the right up to three places. */
  function Widened(s: string): string {
    if |s| >= 3 then s else if |s| == 2 then s + "0" else if |s| == 1 then s + "00" else "000"
  }

  /** The text before the first point and after it, if there is one. */
  function AtPoint(v: string): (string, string) {
    var whole := UpTo(v, '.');
    (whole, if whole == v then "" else v[|whole| + 1..])
  }

  function ParseQ(v: string): Option<nat> {
    var (whole, places) := AtPoint(v);
    if |places| > 3 || !AllDigits(places) then None
    else if whole == "0" then Some(Value(Widened(places)))
    else if whole == "1" && AllZeros(places) then Some(1000)
    else None
  }

  /** The grammar of a weight: 0 with up to three decimals, or 1 with up to three zeros. */
  ghost predicate Qvalue(v: string, whole: string, places: string) {
    && (v == whole + "." + places || (v == whole && places == "")) && |places| <= 3
    && ((whole == "0" && AllDigits(places)) || (whole == "1" && AllZeros(places)))
  }

  /** The decimal fraction written by `places`. */
  ghost function Fraction(places: string): real
    requires AllDigits(places)
  {
    if places == "" then 0.0 else (Digit(places[0]) as real + Fraction(places[1..])) / 10.0
  }

  lemma AtPointOf(v: string, whole: string, places: string)
    requires '.' !in whole && (v == whole + "." + places || (v == whole && places == ""))
    ensures AtPoint(v) == (whole, places)
  {
    UpToJoined(whole, v[|whole|..], '.');
    assert v == whole + v[|whole|..];
  }

  lemma ValueOfThree(p: string)
    requires AllDigits(p) && |p| == 3
    ensures Value(p) == 100 * Digit(p[0]) + 10 * Digit(p[1]) + Digit(p[2])
  {
    assert p[..2][..1] == p[..1] && p[..1][..0] == "";
    assert Value(p[..1]) == 10 * Value("") + Digit(p[0]);
    assert Value(p[..2]) == 10 * Value(p[..1]) + Digit(p[1]);
  }

  lemma FractionOfFew(p: string)
    requires AllDigits(p) && |p| <= 3
    ensures 1000.0 * Fraction(p) ==
      ((if |p| > 0 then 100 * Digit(p[0]) else 0) + (if |p| > 1 then 10 * Digit(p[1]) else 0) +
       (if |p| > 2 then Digit(p[2]) else 0)) as real
  {
    if |p| > 0 { assert Fraction(p) == (Digit(p[0]) as real + Fraction(p[1..])) / 10.0; }
    if |p| > 1 { assert Fraction(p[1..]) == (Digit(p[1]) as real + Fraction(p[1..][1..])) / 10.0; }
    if |p| > 2 { assert Fraction(p[1..][1..]) == (Digit(p[2]) as real + Fraction(p[1..][1..][1..])) / 10.0; }
  }

  lemma PaddedValue(places: string)
    requires AllDigits(places) && |places| <= 3
    ensures AllDigits(Widened(places)) && Value(Widened(places)) as real == 1000.0 * Fraction(places)
  {
    ValueOfThree(Widened(places));
    FractionOfFew(places);
  }

  /** `ParseQ` accepts exactly the grammar's weights, and gives a thousand times their decimal value. */
  lemma ParseQIsExact(v: string)
    ensures ParseQ(v).Some? <==> exists whole, places :: Qvalue(v, whole, places)
    ensures forall whole, places :: Qvalue(v, whole, places) ==>
              AllDigits(places) && ParseQ(v).Some? &&
              ParseQ(v).value as real == 1000.0 * ((if whole == "1" then 1.0 else 0.0) + Fraction(places))
  {
    if ParseQ(v).Some? {
      var (whole, places) := AtPoint(v);
      assert v == whole + "." + places || (v == whole && places == "");
      assert Qvalue(v, whole, places);
    }
    forall whole, places | Qvalue(v, whole, places)
      ensures AllDigits(places) && ParseQ(v).Some? &&
              ParseQ(v).value as real == 1000.0 * ((if whole == "1" then 1.0 else 0.0) + Fraction(places))
    {
      AtPointOf(v, whole, places);
      PaddedValue(places);
      if whole == "1" { ZeroFraction(places); }
    }
  }

  lemma {:induction false} ZeroFraction(places: string)
    requires AllZeros(places)
    ensures AllDigits(places) && Fraction(places) == 0.0
  {
    if places != "" { ZeroFraction(places[1..]); }
  }

  // ----- One element of the header -----

  datatype Choice = Choice(q: nat, lang: Lang)

  function LangOf(tag: string): Option<Lang> {
    var primary := Lower(UpTo(tag, '-'));
    if primary == "en" then Some(En) else if primary == "ja" then Some(Ja) else None
  }

  /** The tag's primary part, before any hyphen, is "en" or "ja" in any case of letters. */
  ghost predicate Names(tag: string, first: char, second: char) {
    |tag| >= 2 && LowerChar(tag[0]) == first && LowerChar(tag[1]) == second && (|tag| > 2 ==> tag[2] == '-')
  }

  lemma LangOfMeans(tag: string)
    ensures LangOf(tag) == Some(En) <==> Names(tag, 'e', 'n')
    ensures LangOf(tag) == Some(Ja) <==> Names(tag, 'j', 'a')
    ensures LowerChar('E') == 'e' == LowerChar('e') && LowerChar('N') == 'n' == LowerChar('n')
    ensures LowerChar('J') == 'j' == LowerChar('j') && LowerChar('A') == 'a' == LowerChar('a')
  {
    var primary := UpTo(tag, '-');
    if |primary| == 2 { LowerOfTwo(primary); }
    if Lower(primary) == "en" || Lower(primary) == "ja" { LowerKeepsLength(primary); }
    if Names(tag, 'e', 'n') || Names(tag, 'j', 'a') {
      assert tag == tag[..2] + tag[2..] && '-' !in tag[..2];
      UpToJoined(tag[..2], tag[2..], '-');
      LowerOfTwo(tag[..2]);
    }
  }

  lemma LowerOfTwo(s: string)
    requires |s| == 2
    ensures Lower(s) == [LowerChar(s[0]), LowerChar(s[1])]
  {
    assert Lower(s[1..]) == [LowerChar(s[1])] + Lower(s[1..][1..]);
  }

  lemma {:induction false} LowerKeepsLength(s: string)
    ensures |Lower(s)| == |s|
  {
    if s != "" { LowerKeepsLength(s[1..]); }
  }

  /** The last weight among the parameters, else `q`; none if one of them is malformed. */
  function Weight(params: seq<string>, q: nat): Option<nat> {
    if params == [] then Some(q)
    else
      var p := Trim(params[0]);
      if !("q=" <= p) then Weight(params[1..], q)
      else
        var parsed := ParseQ(Trim(p[2..]));
        if parsed.None? then None else Weight(params[1..], parsed.value)
  }

  /** Every malformed weight drops the element; otherwise the last one given counts. */
  lemma {:induction false} LastWeightCounts(params: seq<string>, p: string, q: nat)
    ensures Weight(params + [p], q) ==
      if Weight(params, q).None? then None
      else if "q=" <= Trim(p) then ParseQ(Trim(Trim(p)[2..]))
      else Weight(params, q)
  {
    if params == [] {
      assert params + [p] == [p] && [p][1..] == [];
      if "q=" <= Trim(p) {
        var parsed := ParseQ(Trim(Trim(p)[2..]));
        if parsed.Some? { assert Weight([], parsed.value) == parsed; }
      }
    } else {
      var first := Trim(params[0]);
      assert (params + [p])[1..] == params[1..] + [p];
      if "q=" <= first {
        var parsed := ParseQ(Trim(first[2..]));
        if parsed.Some? { LastWeightCounts(params[1..], p, parsed.value); }
      } else {
        LastWeightCounts(params[1..], p, q);
      }
    }
  }

  function Chosen(tag: string, params: seq<string>): Option<Choice> {
    var lang, q := LangOf(tag), Weight(params, 1000);
    if lang.None? || q.None? || q.value == 0 then None else Some(Choice(q.value, lang.value))
  }

  function Item(item: string): Option<Choice> {
    var parts := Split(item, ';');
    Chosen(Trim(parts[0]), parts[1..])
  }

  method ReadItem(item: string) returns (r: Option<Choice>)
    ensures r == Item(item)
  {
    var parts := Split(item, ';');
    var lang := LangOf(Trim(parts[0]));
    if lang.None? {
      return None;
    }
    var q, i := 1000, 1;
    while i < |parts|
      invariant 1 <= i <= |parts|
      invariant Weight(parts[i..], q) == Weight(parts[1..], 1000)
    {
      var p := Trim(parts[i]);
      assert parts[i..][1..] == parts[i + 1..];
      if "q=" <= p {
        var parsed := ParseQ(Trim(p[2..]));
        if parsed.None? {
          return None;
        }
        q := parsed.value;
      }
      i := i + 1;
    }
    r := if q > 0 then Some(Choice(q, lang.value)) else None;
  }

  // ----- The whole header -----

  function Picked(os: seq<Option<Choice>>): seq<Choice> {
    if os == [] then []
    else Picked(os[..|os| - 1]) + if os[|os| - 1].Some? then [os[|os| - 1].value] else []
  }

  function Items(items: seq<string>): seq<Option<Choice>> {
    seq(|items|, i requires 0 <= i < |items| => Item(items[i]))
  }

  /** Puts a choice behind those with at least its weight: stable, heaviest first. */
  function Insert(sorted: seq<Choice>, c: Choice): seq<Choice> {
    if sorted != [] && sorted[|sorted| - 1].q < c.q
    then Insert(sorted[..|sorted| - 1], c) + [sorted[|sorted| - 1]]
    else sorted + [c]
  }

  function StableSorted(cs: seq<Choice>): seq<Choice> {
    if cs == [] then [] else Insert(StableSorted(cs[..|cs| - 1]), cs[|cs| - 1])
  }

  function FirstLang(sorted: seq<Choice>): Lang {
    if sorted == [] then En else sorted[0].lang
  }

  method FromAcceptLanguage(value: string) returns (lang: Lang)
    ensures lang == Selected(Items(Split(value, ',')))
  {
    var items := Split(value, ',');
    var choices, i := [], 0;
    while i < |items|
      invariant 0 <= i <= |items| && choices == Picked(Items(items)[..i])
    {
      assert Items(items)[..i + 1][..i] == Items(items)[..i];
      var c := ReadItem(items[i]);
      choices := choices + if c.Some? then [c.value] else [];
      i := i + 1;
    }
    assert Items(items)[..i] == Items(items);
    lang := FirstLang(StableSorted(choices));
  }

  function Selected(os: seq<Option<Choice>>): Lang {
    FirstLang(StableSorted(Picked(os)))
  }

  // ----- The earliest of the heaviest -----

  ghost predicate Descending(cs: seq<Choice>) {
    forall i, j :: 0 <= i < j < |cs| ==> cs[i].q >= cs[j].q
  }

  /** The choices of one weight, in order. */
  function OfWeight(cs: seq<Choice>, q: nat): seq<Choice> {
    if cs == [] then []
    else OfWeight(cs[..|cs| - 1], q) + if cs[|cs| - 1].q == q then [cs[|cs| - 1]] else []
  }

  lemma {:induction false} InsertKeeps(sorted: seq<Choice>, c: Choice, q: nat)
    ensures Insert(sorted, c) != []
    ensures OfWeight(Insert(sorted, c), q) == OfWeight(sorted, q) + if c.q == q then [c] else []
  {
    var r := Insert(sorted, c);
    if sorted != [] && sorted[|sorted| - 1].q < c.q {
      InsertKeeps(sorted[..|sorted| - 1], c, q);
      assert r[..|r| - 1] == Insert(sorted[..|sorted| - 1], c);
    } else {
      assert r[..|r| - 1] == sorted;
    }
  }

  lemma {:induction false} InsertSorts(sorted: seq<Choice>, c: Choice)
    requires Descending(sorted)
    ensures var r := Insert(sorted, c);
      r != [] && Descending(r) && (forall x :: x in r ==> x in sorted || x == c) &&
      r[0] == if sorted == [] || sorted[0].q < c.q then c else sorted[0]
  {
    if sorted != [] && sorted[|sorted| - 1].q < c.q {
      var front, last := sorted[..|sorted| - 1], sorted[|sorted| - 1];
      InsertSorts(front, c);
      assert forall x :: x in front ==> x in sorted && x.q >= last.q;
      assert forall i :: 0 <= i < |Insert(front, c)| ==> Insert(front, c)[i] in front || Insert(front, c)[i] == c;
    } else {
      assert forall x :: x in sorted + [c] ==> x in sorted || x == c;
    }
  }

  /** Heaviest first, and the choices of each weight are all kept, in the order they came in. */
  lemma {:induction false} SortIsStable(cs: seq<Choice>)
    ensures Descending(StableSorted(cs))
    ensures forall q :: OfWeight(StableSorted(cs), q) == OfWeight(cs, q)
  {
    if cs != [] {
      var front, last := cs[..|cs| - 1], cs[|cs| - 1];
      SortIsStable(front);
      InsertSorts(StableSorted(front), last);
      forall q ensures OfWeight(StableSorted(cs), q) == OfWeight(cs, q) { InsertKeeps(StableSorted(front), last, q); }
    }
  }

  /** Element `i` is wanted, and none is with more weight, or with as much but earlier. */
  ghost predicate Earliest(os: seq<Option<Choice>>, i: nat) {
    && i < |os| && os[i].Some?
    && (forall j :: 0 <= j < |os| && os[j].Some? ==> os[j].value.q <= os[i].value.q)
    && (forall j :: 0 <= j < i && os[j].Some? ==> os[j].value.q < os[i].value.q)
  }

  lemma SortStep(os: seq<Option<Choice>>)
    requires os != []
    ensures var front, c := Picked(os[..|os| - 1]), os[|os| - 1];
      StableSorted(Picked(os)) == if c.Some? then Insert(StableSorted(front), c.value) else StableSorted(front)
  {
    var front, c := Picked(os[..|os| - 1]), os[|os| - 1];
    if c.Some? {
      assert (front + [c.value])[..|front|] == front;
    } else {
      assert Picked(os) == front;
    }
  }

  ghost predicate HeadIs(sorted: seq<Choice>, os: seq<Option<Choice>>, i: nat) {
    if sorted == [] then forall j :: 0 <= j < |os| ==> os[j].None?
    else Earliest(os, i) && sorted[0] == os[i].value
  }

  lemma HeadStep(sorted: seq<Choice>, after: seq<Choice>, os: seq<Option<Choice>>, i: nat) returns (k: nat)
    requires os != [] && Descending(sorted) && HeadIs(sorted, os[..|os| - 1], i)
    requires after == if os[|os| - 1].Some? then Insert(sorted, os[|os| - 1].value) else sorted
    ensures Descending(after) && HeadIs(after, os, k)
  {
    if os[|os| - 1].None? {
      k := i;
      HeadKept(sorted, os, i);
    } else {
      var c := os[|os| - 1].value;
      InsertSorts(sorted, c);
      if sorted == [] || sorted[0].q < c.q {
        k := |os| - 1;
        HeadReplaced(sorted, after, os, i);
      } else {
        k := i;
        assert Earliest(os[..|os| - 1], i);
        EarliestKept(os, i);
      }
    }
  }

  lemma EarliestKept(os: seq<Option<Choice>>, i: nat)
    requires os != [] && Earliest(os[..|os| - 1], i)
    requires os[|os| - 1].Some? ==> os[|os| - 1].value.q <= os[i].value.q
    ensures Earliest(os, i)
  {
    var front := os[..|os| - 1];
    assert forall j :: 0 <= j < |front| ==> os[j] == front[j];
  }

  lemma HeadKept(sorted: seq<Choice>, os: seq<Option<Choice>>, i: nat)
    requires os != [] && os[|os| - 1].None? && HeadIs(sorted, os[..|os| - 1], i)
    ensures HeadIs(sorted, os, i)
  {
    var front := os[..|os| - 1];
    assert forall j :: 0 <= j < |front| ==> os[j] == front[j];
    if sorted != [] { EarliestKept(os, i); }
  }

  lemma HeadReplaced(sorted: seq<Choice>, after: seq<Choice>, os: seq<Option<Choice>>, i: nat)
    requires os != [] && os[|os| - 1].Some? && HeadIs(sorted, os[..|os| - 1], i)
    requires after != [] && after[0] == os[|os| - 1].value && (sorted == [] || sorted[0].q < after[0].q)
    ensures HeadIs(after, os, |os| - 1)
  {
    var front := os[..|os| - 1];
    assert forall j :: 0 <= j < |front| ==> os[j] == front[j];
  }

  lemma {:induction false} FirstIsEarliest(os: seq<Option<Choice>>) returns (i: nat)
    ensures Descending(StableSorted(Picked(os))) && HeadIs(StableSorted(Picked(os)), os, i)
  {
    i := 0;
    if os != [] {
      var front := os[..|os| - 1];
      var k := FirstIsEarliest(front);
      SortStep(os);
      i := HeadStep(StableSorted(Picked(front)), StableSorted(Picked(os)), os, k);
    }
  }

  /** The earliest element of greatest weight decides; English, if nothing is wanted. */
  ghost predicate Decides(os: seq<Option<Choice>>, lang: Lang) {
    if exists j :: 0 <= j < |os| && os[j].Some?
    then exists i: nat :: Earliest(os, i) && lang == os[i].value.lang
    else lang == En
  }

  lemma SelectedIsEarliest(os: seq<Option<Choice>>)
    ensures Decides(os, Selected(os))
  {
    var i := FirstIsEarliest(os);
  }

  // ----- Headers built from ranges -----

  datatype Range = Range(tag: string, weight: Option<string>)

  ghost predicate Clean(s: string) {
    ',' !in s && ';' !in s && NoEdgeSpace(s)
  }

  ghost predicate CleanRange(r: Range) {
    Clean(r.tag) && (r.weight.Some? ==> Clean(r.weight.value))
  }

  function Printed(r: Range): string {
    if r.weight.None? then r.tag else r.tag + ";q=" + r.weight.value
  }

  function Header(rs: seq<Range>): string
    requires rs != []
  {
    if |rs| == 1 then Printed(rs[0]) else Printed(rs[0]) + ", " + Header(rs[1..])
  }

  /** What the header asks for by this range: a supported language with a positive weight, 1 if not given. */
  function Wanted(r: Range): Option<Choice> {
    var lang := LangOf(r.tag);
    var q := if r.weight.None? then Some(1000) else ParseQ(r.weight.value);
    if lang.None? || q.None? || q.value == 0 then None else Some(Choice(q.value, lang.value))
  }

  lemma TrimOf(s: string)
    requires NoEdgeSpace(s)
    ensures Trim(s) == s && Trim(" " + s) == s
  {
    assert (" " + s)[1..] == s;
    assert TrimStart(" " + s) == TrimStart(s);
  }

  lemma WeightOfOne(w: string)
    requires NoEdgeSpace(w)
    ensures Weight(["q=" + w], 1000) == ParseQ(w)
  {
    var p := "q=" + w;
    assert NoEdgeSpace(p) && p[2..] == w;
    TrimOf(p);
    TrimOf(w);
    assert [p][1..] == [];
    var parsed := ParseQ(w);
    if parsed.Some? { assert Weight([], parsed.value) == parsed; }
  }

  lemma ItemOfParts(item: string, a: string, params: seq<string>)
    requires Split(item, ';') == [a] + params
    ensures Item(item) == Chosen(Trim(a), params)
  {
    assert ([a] + params)[1..] == params;
  }

  lemma WeightedParts(a: string, w: string)
    requires ';' !in a && ';' !in w
    ensures Split(a + (";q=" + w), ';') == [a, "q=" + w]
  {
    var p := "q=" + w;
    assert ";q=" + w == [';'] + p;
    assert a + (";q=" + w) == a + [';'] + p;
    SplitAfter(a, ';', p);
    SplitWhole(p, ';');
  }

  lemma LeadTrimmed(lead: string, tag: string)
    requires (lead == "" || lead == " ") && Clean(tag)
    ensures Trim(lead + tag) == tag && ';' !in lead + tag
  {
    TrimOf(tag);
    assert lead == "" ==> lead + tag == tag;
  }

  lemma BareItem(lead: string, tag: string)
    requires (lead == "" || lead == " ") && Clean(tag)
    ensures Item(lead + tag) == Chosen(tag, [])
  {
    LeadTrimmed(lead, tag);
    SplitWhole(lead + tag, ';');
    ItemOfParts(lead + tag, lead + tag, []);
  }

  lemma WeightedItem(lead: string, tag: string, w: string)
    requires (lead == "" || lead == " ") && Clean(tag) && Clean(w)
    ensures Item((lead + tag) + (";q=" + w)) == Chosen(tag, ["q=" + w])
  {
    LeadTrimmed(lead, tag);
    WeightedParts(lead + tag, w);
    ItemOfParts((lead + tag) + (";q=" + w), lead + tag, ["q=" + w]);
  }

  lemma WantedIsChosen(r: Range)
    requires CleanRange(r)
    ensures Wanted(r) == Chosen(r.tag, if r.weight.None? then [] else ["q=" + r.weight.value])
  {
    if r.weight.Some? { WeightOfOne(r.weight.value); }
  }

  lemma PrintedJoined(lead: string, tag: string, w: string)
    ensures lead + (tag + ";q=" + w) == (lead + tag) + (";q=" + w)
  {}

  lemma ItemOfRange(r: Range, lead: string)
    requires CleanRange(r) && (lead == "" || lead == " ")
    ensures Item(lead + Printed(r)) == Wanted(r)
  {
    WantedIsChosen(r);
    if r.weight.None? {
      BareItem(lead, r.tag);
    } else {
      WeightedItem(lead, r.tag, r.weight.value);
      PrintedJoined(lead, r.tag, r.weight.value);
    }
  }

  function Leads(rs: seq<Range>, first: bool): seq<string> {
    if rs == [] then [] else [(if first then "" else " ") + Printed(rs[0])] + Leads(rs[1..], false)
  }

  lemma CommaJoined(lead: string, item: string, rest: string)
    ensures lead + (item + ", " + rest) == (lead + item) + [','] + (" " + rest)
  {}

  lemma {:induction false} SplitHeader(rs: seq<Range>, first: bool)
    requires rs != [] && forall i :: 0 <= i < |rs| ==> CleanRange(rs[i])
    ensures Split((if first then "" else " ") + Header(rs), ',') == Leads(rs, first)
  {
    var lead := if first then "" else " ";
    var item := lead + Printed(rs[0]);
    assert ',' !in item;
    if |rs| == 1 {
      SplitWhole(item, ',');
      assert rs[1..] == [];
    } else {
      SplitHeader(rs[1..], false);
      CommaJoined(lead, Printed(rs[0]), Header(rs[1..]));
      SplitAfter(item, ',', " " + Header(rs[1..]));
    }
  }

  lemma {:induction false} LeadsAt(rs: seq<Range>, first: bool, i: nat)
    requires i < |rs|
    ensures |Leads(rs, first)| == |rs|
    ensures Leads(rs, first)[i] == (if first && i == 0 then "" else " ") + Printed(rs[i])
  {
    if i > 0 { LeadsAt(rs[1..], false, i - 1); } else if |rs| > 1 { LeadsAt(rs[1..], false, 0); }
  }

  function Wants(rs: seq<Range>): seq<Option<Choice>> {
    seq(|rs|, i requires 0 <= i < |rs| => Wanted(rs[i]))
  }

  lemma ItemAt(rs: seq<Range>, i: nat)
    requires i < |rs| && CleanRange(rs[i])
    ensures |Leads(rs, true)| == |rs| && Item(Leads(rs, true)[i]) == Wanted(rs[i])
  {
    LeadsAt(rs, true, i);
    ItemOfRange(rs[i], if i == 0 then "" else " ");
  }

  lemma EqualByIndex(a: seq<Option<Choice>>, b: seq<Option<Choice>>)
    requires |a| == |b| && forall i :: 0 <= i < |a| ==> a[i] == b[i]
    ensures a == b
  {}

  lemma ItemsOfLeads(rs: seq<Range>)
    requires rs != [] && forall i :: 0 <= i < |rs| ==> CleanRange(rs[i])
    ensures Items(Leads(rs, true)) == Wants(rs)
  {
    LeadsAt(rs, true, 0);
    var items, wants := Items(Leads(rs, true)), Wants(rs);
    forall i | 0 <= i < |rs| ensures items[i] == wants[i] {
      ItemAt(rs, i);
    }
    EqualByIndex(items, wants);
  }

  lemma ItemsOfHeader(rs: seq<Range>)
    requires rs != [] && forall i :: 0 <= i < |rs| ==> CleanRange(rs[i])
    ensures Items(Split(Header(rs), ',')) == Wants(rs)
  {
    SplitHeader(rs, true);
    assert "" + Header(rs) == Header(rs);
    ItemsOfLeads(rs);
  }

  /** A header built from ranges selects the earliest supported range of greatest positive weight, and
      English when there is none. */
  lemma HeaderSelects(rs: seq<Range>)
    requires rs != [] && forall i :: 0 <= i < |rs| ==> CleanRange(rs[i])
    ensures Decides(Wants(rs), Selected(Items(Split(Header(rs), ','))))
  {
    ItemsOfHeader(rs);
    SelectedIsEarliest(Wants(rs));
  }
}

/** The comparison of attested and local evidence: number normalisation, then one
    line of JSON with sorted keys. Its text decides equality, so the text must tell
    apart exactly what is meant to be different. */
module CanonicalJson {
  import opened Outcomes
  import opened Text
  import opened Numerals
  import opened JsonText
  import opened Order

  const MAX_EXACT_INTEGER: int := 9_007_199_254_740_991

  function PowerOfTwo(e: nat): (p: nat)
    ensures p > 0
  {
    if e == 0 then 1 else 2 * PowerOfTwo(e - 1)
  }

  function Scaled(m: int, e: nat): real {
    m as real / PowerOfTwo(e) as real
  }

  function Magnified(m: int, e: nat): real {
    (m * PowerOfTwo(e)) as real
  }

  /** The finite doubles: a 53-bit integer over a power of two, or times one. */
  ghost predicate IsDouble(r: real) {
    || r == 0.0
    || (exists m: int, e: nat :: -MAX_EXACT_INTEGER <= m <= MAX_EXACT_INTEGER && e <= 1074 && r == Scaled(m, e))
    || (exists m: int, e: nat :: -MAX_EXACT_INTEGER <= m <= MAX_EXACT_INTEGER && e <= 971 && r == Magnified(m, e))
  }

  type Double = r: real | IsDouble(r) witness 0.0

  /** A double, infinite and not a number included. */
  datatype PyFloat = Finite(value: Double) | NonFinite

  /** A parsed document; object members in the order they were read. */
  datatype Json =
    | Null
    | Bool(b: bool)
    | Int(n: int)
    | Float(f: PyFloat)
    | Str(s: string)
    | Arr(items: seq<Json>)
    | Obj(members: seq<Member>)

  datatype Member = Member(key: string, value: Json)

  /** A dictionary's value for a key, `Null` if it has none. */
  function Get(members: seq<Member>, key: string): Json {
    if members == [] then Null
    else if members[0].key == key then members[0].value
    else Get(members[1..], key)
  }

  const ByKey: Member -> string := (m: Member) => m.key

  predicate Integral(r: real) {
    r == r.Floor as real
  }

  // ---------------------------------------------------------------- normalisation

  /** What normalisation accepts: every number finite and of a magnitude that a
      double holds exactly. */
  predicate Acceptable(v: Json) {
    match v
    case Int(n) => -MAX_EXACT_INTEGER <= n <= MAX_EXACT_INTEGER
    case Float(x) => x.Finite? && -(MAX_EXACT_INTEGER as real) <= x.value <= MAX_EXACT_INTEGER as real
    case Arr(items) => forall i :: 0 <= i < |items| ==> Acceptable(items[i])
    case Obj(members) => forall i :: 0 <= i < |members| ==> Acceptable(members[i].value)
    case _ => true
  }

  /** The value occurs in the document, at any depth. */
  predicate Occurs(x: Json, v: Json)
    decreases v
  {
    || x == v
    || (v.Arr? && exists i :: 0 <= i < |v.items| && Occurs(x, v.items[i]))
    || (v.Obj? && exists i :: 0 <= i < |v.members| && Occurs(x, v.members[i].value))
  }

  /** A number that JSON texts of both sides hold exactly: no infinity, and of magnitude below 2^53. */
  predicate SafeNumber(x: Json) {
    match x
    case Int(n) => -9_007_199_254_740_991 <= n <= 9_007_199_254_740_991
    case Float(NonFinite) => false
    case Float(Finite(r)) => -9_007_199_254_740_991.0 <= r <= 9_007_199_254_740_991.0
    case _ => true
  }

  /** Exactly which documents are accepted: those in which every number, integer or float, at any
      depth, is finite and of a magnitude that a double holds exactly. */
  lemma {:induction false} AcceptableExactly(v: Json)
    ensures Acceptable(v) <==> forall x :: Occurs(x, v) ==> SafeNumber(x)
    decreases v
  {
    match v
    case Arr(items) =>
      forall i | 0 <= i < |items|
        ensures Acceptable(items[i]) <==> forall x :: Occurs(x, items[i]) ==> SafeNumber(x)
      {
        AcceptableExactly(items[i]);
      }
      assert forall i, x :: 0 <= i < |items| && Occurs(x, items[i]) ==> Occurs(x, v);
    case Obj(members) =>
      forall i | 0 <= i < |members|
        ensures Acceptable(members[i].value) <==> forall x :: Occurs(x, members[i].value) ==> SafeNumber(x)
      {
        AcceptableExactly(members[i].value);
      }
      assert forall i, x :: 0 <= i < |members| && Occurs(x, members[i].value) ==> Occurs(x, v);
    case _ =>
      assert Occurs(v, v);
  }

  function Norm(v: Json): Json {
    match v
    case Float(Finite(r)) => if Integral(r) then Int(r.Floor) else v
    case Arr(items) => Arr(seq(|items|, i requires 0 <= i < |items| => Norm(items[i])))
    case Obj(members) =>
      Obj(seq(|members|, i requires 0 <= i < |members| => Member(members[i].key, Norm(members[i].value))))
    case _ => v
  }

  /** Normalisation rejects the whole document if any number in it is unsafe. */
  function Normalize(v: Json): Option<Json> {
    if Acceptable(v) then Some(Norm(v)) else None
  }

  /** Every object of the document has its keys once, as parsing ensures. */
  predicate UniqueKeys(v: Json) {
    match v
    case Arr(items) => forall i :: 0 <= i < |items| ==> UniqueKeys(items[i])
    case Obj(members) =>
      && (forall i, j :: 0 <= i < j < |members| ==> members[i].key != members[j].key)
      && (forall i :: 0 <= i < |members| ==> UniqueKeys(members[i].value))
    case _ => true
  }

  /** Parsing an object refuses a repeated key and otherwise keeps every pair. */
  method Unique(pairs: seq<Member>) returns (r: Option<seq<Member>>)
    ensures r.Some? <==> forall i, j :: 0 <= i < j < |pairs| ==> pairs[i].key != pairs[j].key
    ensures r.Some? ==> r.value == pairs
  {
    var result: seq<Member> := [];
    var keys: set<string> := {};
    for i := 0 to |pairs|
      invariant result == pairs[..i]
      invariant forall k :: k in keys <==> exists j :: 0 <= j < i && pairs[j].key == k
      invariant forall j, l :: 0 <= j < l < i ==> pairs[j].key != pairs[l].key
    {
      if pairs[i].key in keys {
        return None;
      }
      result := result + [pairs[i]];
      keys := keys + {pairs[i].key};
    }
    r := Some(result);
  }

  // ------------------------------------------------------------ canonical printing

  /** `sort_keys`, at every level. */
  function SortKeys(v: Json): Json {
    match v
    case Arr(items) => Arr(seq(|items|, i requires 0 <= i < |items| => SortKeys(items[i])))
    case Obj(members) =>
      Obj(Sort(seq(|members|, i requires 0 <= i < |members| =>
                     Member(members[i].key, SortKeys(members[i].value))), ByKey))
    case _ => v
  }

  /** How non-integral floats are printed. */
  type FloatText = Double -> string

  function Print(v: Json, ft: FloatText): string
    decreases v
  {
    match v
    case Null => "null"
    case Bool(b) => if b then "true" else "false"
    case Int(n) => Decimal(n)
    case Float(Finite(r)) => ft(r)
    case Float(_) => ""
    case Str(s) => StringToken(s, Plain)
    case Arr(items) => "[" + PrintItems(items, ft)
    case Obj(members) => "{" + PrintMembers(members, ft)
  }

  function PrintItems(items: seq<Json>, ft: FloatText): string
    decreases items
  {
    if items == [] then "]"
    else Print(items[0], ft) + (if |items| == 1 then "]" else "," + PrintItems(items[1..], ft))
  }

  function PrintMembers(members: seq<Member>, ft: FloatText): string
    decreases members
  {
    if members == [] then "}"
    else
      StringToken(members[0].key, Plain) + ":" + Print(members[0].value, ft)
      + (if |members| == 1 then "}" else "," + PrintMembers(members[1..], ft))
  }

  /** The text that is compared, or a rejection. */
  function CanonicalText(v: Json, ft: FloatText): Option<string> {
    match Normalize(v)
    case None => None
    case Some(n) => Some(Print(SortKeys(n), ft))
  }

  // ------------------------------------------------- the equality that is intended

  function NumberOf(v: Json): Option<real> {
    match v
    case Int(n) => Some(n as real)
    case Float(Finite(r)) => Some(r)
    case _ => None
  }

  function KeySet(members: seq<Member>): set<string> {
    set i | 0 <= i < |members| :: members[i].key
  }

  /** Equal as JSON: numbers by value however spelled, objects whatever the order of
      their members, and nothing else alike. */
  predicate Same(a: Json, b: Json)
    decreases a
  {
    match (a, b)
    case (Null, Null) => true
    case (Bool(x), Bool(y)) => x == y
    case (Str(x), Str(y)) => x == y
    case (Arr(xs), Arr(ys)) => |xs| == |ys| && forall i :: 0 <= i < |xs| ==> Same(xs[i], ys[i])
    case (Obj(xs), Obj(ys)) =>
      && KeySet(xs) == KeySet(ys)
      && (forall i, j :: 0 <= i < |xs| && 0 <= j < |ys| && xs[i].key == ys[j].key ==> Same(xs[i].value, ys[j].value))
    case _ => NumberOf(a).Some? && NumberOf(a) == NumberOf(b)
  }

  lemma {:induction false} GetFinds(members: seq<Member>, i: nat)
    requires i < |members| && forall j, k :: 0 <= j < k < |members| ==> members[j].key != members[k].key
    ensures Get(members, members[i].key) == members[i].value
  {
    if i > 0 {
      assert members[0].key != members[i].key;
      GetFinds(members[1..], i - 1);
    }
  }

  lemma {:induction false} GetMisses(members: seq<Member>, key: string)
    requires forall i :: 0 <= i < |members| ==> members[i].key != key
    ensures Get(members, key) == Null
  {
    if members != [] {
      GetMisses(members[1..], key);
    }
  }

  lemma {:induction false} GetIsUnique(members: seq<Member>, key: string)
    requires UniqueKeys(Obj(members))
    ensures UniqueKeys(Get(members, key))
  {
    if members != [] && members[0].key != key {
      assert UniqueKeys(Obj(members[1..])) by {
        assert forall i :: 0 <= i < |members[1..]| ==> members[1..][i] == members[i + 1];
      }
      GetIsUnique(members[1..], key);
    }
  }

  lemma {:induction false} GetByKey(members: seq<Member>, key: string)
    requires UniqueKeys(Obj(members)) && key in KeySet(members)
    ensures exists i :: 0 <= i < |members| && members[i] == Member(key, Get(members, key))
  {
    var i :| 0 <= i < |members| && members[i].key == key;
    GetFinds(members, i);
  }

  /** Objects are the same when they have the same keys and the same value for each. */
  lemma SameByKey(xs: seq<Member>, ys: seq<Member>)
    requires UniqueKeys(Obj(xs)) && UniqueKeys(Obj(ys))
    ensures Same(Obj(xs), Obj(ys)) <==>
      KeySet(xs) == KeySet(ys) && forall key :: key in KeySet(xs) ==> Same(Get(xs, key), Get(ys, key))
  {
    forall i | 0 <= i < |xs| ensures xs[i].key in KeySet(xs) && Get(xs, xs[i].key) == xs[i].value {
      GetFinds(xs, i);
    }
    forall j | 0 <= j < |ys| ensures ys[j].key in KeySet(ys) && Get(ys, ys[j].key) == ys[j].value {
      GetFinds(ys, j);
    }
    if Same(Obj(xs), Obj(ys)) {
      forall key | key in KeySet(xs) ensures Same(Get(xs, key), Get(ys, key)) {
        GetByKey(xs, key);
        GetByKey(ys, key);
      }
    }
  }

  /** The value that gets printed. */
  function Form(v: Json): Json {
    SortKeys(Norm(v))
  }

  function FormMembers(members: seq<Member>): (r: seq<Member>)
    ensures |r| == |members|
    ensures forall i :: 0 <= i < |r| ==> r[i] == Member(members[i].key, Form(members[i].value))
  {
    seq(|members|, i requires 0 <= i < |members| => Member(members[i].key, Form(members[i].value)))
  }

  lemma FormOfArr(items: seq<Json>)
    ensures Form(Arr(items)).Arr? && |Form(Arr(items)).items| == |items|
    ensures forall i :: 0 <= i < |items| ==> Form(Arr(items)).items[i] == Form(items[i])
  {
  }

  lemma FormOfObj(members: seq<Member>)
    ensures Form(Obj(members)) == Obj(Sort(FormMembers(members), ByKey))
  {
    var normed := Norm(Obj(members)).members;
    assert seq(|normed|, i requires 0 <= i < |normed| => Member(normed[i].key, SortKeys(normed[i].value)))
           == FormMembers(members);
  }

  lemma FormOfNumber(a: Json, b: Json)
    requires NumberOf(a).Some? && NumberOf(b).Some?
    ensures NumberOf(a) == NumberOf(b) <==> Form(a) == Form(b)
  {
  }

  lemma InSorted(s: seq<Member>, x: Member)
    ensures x in Sort(s, ByKey) <==> x in s
  {
    SortPermutes(s, ByKey);
    assert x in Sort(s, ByKey) <==> x in multiset(Sort(s, ByKey));
    assert x in s <==> x in multiset(s);
  }

  /** The pairs of values that the induction has dealt with. */
  ghost predicate ValuesCompareRight(xs: seq<Member>, ys: seq<Member>) {
    forall i, j :: 0 <= i < |xs| && 0 <= j < |ys| ==>
                     (Same(xs[i].value, ys[j].value) <==> Form(xs[i].value) == Form(ys[j].value))
  }

  lemma SameMembersOneWay(xs: seq<Member>, ys: seq<Member>, x: Member)
    requires ValuesCompareRight(xs, ys) && Same(Obj(xs), Obj(ys))
    ensures x in FormMembers(xs) ==> x in FormMembers(ys)
  {
    if x in FormMembers(xs) {
      var i :| 0 <= i < |xs| && FormMembers(xs)[i] == x;
      assert xs[i].key in KeySet(ys);
      var j :| 0 <= j < |ys| && ys[j].key == xs[i].key;
      assert FormMembers(ys)[j] == x;
    }
  }

  lemma SameMembersOtherWay(xs: seq<Member>, ys: seq<Member>, x: Member)
    requires ValuesCompareRight(xs, ys) && Same(Obj(xs), Obj(ys))
    ensures x in FormMembers(ys) ==> x in FormMembers(xs)
  {
    if x in FormMembers(ys) {
      var j :| 0 <= j < |ys| && FormMembers(ys)[j] == x;
      assert ys[j].key in KeySet(xs);
      var i :| 0 <= i < |xs| && xs[i].key == ys[j].key;
      assert FormMembers(xs)[i] == x;
    }
  }

  lemma SameObjectsHaveOneForm(xs: seq<Member>, ys: seq<Member>)
    requires UniqueKeys(Obj(xs)) && UniqueKeys(Obj(ys)) && ValuesCompareRight(xs, ys) && Same(Obj(xs), Obj(ys))
    ensures Form(Obj(xs)) == Form(Obj(ys))
  {
    var fx, fy := FormMembers(xs), FormMembers(ys);
    FormOfObj(xs);
    FormOfObj(ys);
    SortSorts(fx, ByKey);
    SortSorts(fy, ByKey);
    forall x ensures x in Sort(fx, ByKey) <==> x in Sort(fy, ByKey) {
      InSorted(fx, x);
      InSorted(fy, x);
      SameMembersOneWay(xs, ys, x);
      SameMembersOtherWay(xs, ys, x);
    }
    SortedSameElements(Sort(fx, ByKey), Sort(fy, ByKey), ByKey);
  }

  lemma OneFormMeansSameObjects(xs: seq<Member>, ys: seq<Member>)
    requires UniqueKeys(Obj(xs)) && UniqueKeys(Obj(ys)) && ValuesCompareRight(xs, ys)
    requires Form(Obj(xs)) == Form(Obj(ys))
    ensures Same(Obj(xs), Obj(ys))
  {
    var fx, fy := FormMembers(xs), FormMembers(ys);
    FormOfObj(xs);
    FormOfObj(ys);
    forall x ensures x in fx <==> x in fy {
      InSorted(fx, x);
      InSorted(fy, x);
    }
    forall key ensures key in KeySet(xs) <==> key in KeySet(ys) {
      KeysFollowMembers(xs, ys, key);
      KeysFollowMembers(ys, xs, key);
    }
    forall i, j | 0 <= i < |xs| && 0 <= j < |ys| && xs[i].key == ys[j].key
      ensures Same(xs[i].value, ys[j].value)
    {
      assert fx[i] in fy;
      var l :| 0 <= l < |fy| && fy[l] == fx[i];
      assert l == j;
    }
  }

  lemma KeysFollowMembers(xs: seq<Member>, ys: seq<Member>, key: string)
    requires forall x :: x in FormMembers(xs) ==> x in FormMembers(ys)
    ensures key in KeySet(xs) ==> key in KeySet(ys)
  {
    if key in KeySet(xs) {
      var i :| 0 <= i < |xs| && xs[i].key == key;
      assert FormMembers(xs)[i] in FormMembers(ys);
    }
  }

  /** Normalising and sorting identifies exactly the documents that are the same. */
  lemma {:induction false} FormDecidesSame(a: Json, b: Json)
    requires Acceptable(a) && Acceptable(b) && UniqueKeys(a) && UniqueKeys(b)
    ensures Same(a, b) <==> Form(a) == Form(b)
    decreases a
  {
    match (a, b)
    case (Arr(xs), Arr(ys)) =>
      FormOfArr(xs);
      FormOfArr(ys);
      if |xs| == |ys| {
        forall i | 0 <= i < |xs| ensures Same(xs[i], ys[i]) <==> Form(xs[i]) == Form(ys[i]) {
          FormDecidesSame(xs[i], ys[i]);
        }
      }
    case (Obj(xs), Obj(ys)) =>
      forall i, j | 0 <= i < |xs| && 0 <= j < |ys|
        ensures Same(xs[i].value, ys[j].value) <==> Form(xs[i].value) == Form(ys[j].value)
      {
        FormDecidesSame(xs[i].value, ys[j].value);
      }
      if Same(a, b) {
        SameObjectsHaveOneForm(xs, ys);
      } else if Form(a) == Form(b) {
        OneFormMeansSameObjects(xs, ys);
      }
    case _ =>
      if NumberOf(a).Some? && NumberOf(b).Some? {
        FormOfNumber(a, b);
      }
  }

  /** Normalising twice is normalising once, and what it returns is acceptable. */
  lemma {:induction false} NormalizeIsIdempotent(v: Json)
    ensures Normalize(v).Some? ==> Normalize(Normalize(v).value) == Normalize(v)
    decreases v
  {
    match v
    case Arr(items) =>
      forall i | 0 <= i < |items|
        ensures Acceptable(items[i]) ==> Acceptable(Norm(items[i])) && Norm(Norm(items[i])) == Norm(items[i])
      {
        NormalizeIsIdempotent(items[i]);
      }
      if Acceptable(v) {
        assert Norm(Norm(v)).items == Norm(v).items;
      }
    case Obj(members) =>
      forall i | 0 <= i < |members|
        ensures Acceptable(members[i].value) ==>
                  Acceptable(Norm(members[i].value)) && Norm(Norm(members[i].value)) == Norm(members[i].value)
      {
        NormalizeIsIdempotent(members[i].value);
      }
      if Acceptable(v) {
        assert Norm(Norm(v)).members == Norm(v).members;
      }
    case _ =>
  }

  // ------------------------------------------------------ the text tells them apart

  predicate NumberChar(c: char) {
    IsDigit(c) || c == '-' || c == '+' || c == '.' || c == 'e'
  }

  predicate NumberText(t: string) {
    && t != "" && (IsDigit(t[0]) || t[0] == '-')
    && (forall i :: 0 <= i < |t| ==> NumberChar(t[i]))
  }

  /** What is used of Python's float printing: a number's text, unlike any integer's,
      and no text for two values. */
  ghost predicate FaithfulFloats(ft: FloatText) {
    && (forall r: Double :: !Integral(r) ==> NumberText(ft(r)) && ('.' in ft(r) || 'e' in ft(r)))
    && (forall r: Double, q: Double :: !Integral(r) && !Integral(q) && ft(r) == ft(q) ==> r == q)
  }

  /** A form: no integral or non-finite float is left in it. */
  predicate Printable(v: Json) {
    match v
    case Float(x) => x.Finite? && !Integral(x.value)
    case Arr(items) => forall i :: 0 <= i < |items| ==> Printable(items[i])
    case Obj(members) => forall i :: 0 <= i < |members| ==> Printable(members[i].value)
    case _ => true
  }

  lemma {:induction false} FormIsPrintable(v: Json)
    requires Acceptable(v)
    ensures Printable(Form(v))
    decreases v
  {
    match v
    case Arr(items) =>
      FormOfArr(items);
      forall i | 0 <= i < |items| ensures Printable(Form(items[i])) {
        FormIsPrintable(items[i]);
      }
    case Obj(members) =>
      FormOfObj(members);
      var fm := FormMembers(members);
      var sorted := Sort(fm, ByKey);
      forall i | 0 <= i < |sorted| ensures Printable(sorted[i].value) {
        InSorted(fm, sorted[i]);
        var j :| 0 <= j < |fm| && fm[j] == sorted[i];
        FormIsPrintable(members[j].value);
      }
    case _ =>
  }

  /** What may follow a printed value. */
  predicate Delimited(rest: string) {
    rest == "" || rest[0] == ',' || rest[0] == ']' || rest[0] == '}'
  }

  lemma IntText(n: int)
    ensures NumberText(Decimal(n)) && '.' !in Decimal(n) && 'e' !in Decimal(n)
  {
    DecimalDigits(if n < 0 then -n else n);
  }

  /** How far the number characters reach. */
  function NumberLength(t: string): nat {
    if t == "" || !NumberChar(t[0]) then 0 else 1 + NumberLength(t[1..])
  }

  /** A number text ends where the number characters end. */
  lemma {:induction false} NumberTextIsDelimited(a: string, rest: string)
    requires forall i :: 0 <= i < |a| ==> NumberChar(a[i])
    requires Delimited(rest)
    ensures NumberLength(a + rest) == |a|
  {
    if a == "" {
      assert a + rest == rest;
    } else {
      assert (a + rest)[1..] == a[1..] + rest;
      NumberTextIsDelimited(a[1..], rest);
    }
  }

  lemma NumberTextsAgree(a: string, b: string, ra: string, rb: string)
    requires NumberText(a) && NumberText(b) && Delimited(ra) && Delimited(rb) && a + ra == b + rb
    ensures a == b && ra == rb
  {
    NumberTextIsDelimited(a, ra);
    NumberTextIsDelimited(b, rb);
    assert a == (a + ra)[..|a|] && b == (b + rb)[..|b|];
    assert ra == (a + ra)[|a|..] && rb == (b + rb)[|b|..];
  }

  lemma ReadToken(x: string, rest: string)
    ensures ReadString((StringToken(x, Plain) + rest)[1..]) == Some((x, rest))
  {
    ReadEscaped(x, Plain, rest);
    assert (StringToken(x, Plain) + rest)[1..] == Escape(x, Plain) + [QUOTE] + rest;
  }

  lemma TokensAgree(x: string, y: string, rx: string, ry: string)
    requires StringToken(x, Plain) + rx == StringToken(y, Plain) + ry
    ensures x == y && rx == ry
  {
    ReadToken(x, rx);
    ReadToken(y, ry);
  }

  /** The constructor shows in the first character. */
  function Kind(v: Json): nat {
    match v
    case Null => 0
    case Bool(_) => 1
    case Int(_) => 2
    case Float(_) => 2
    case Str(_) => 3
    case Arr(_) => 4
    case Obj(_) => 5
  }

  function KindOfText(c: char): nat {
    if c == 'n' then 0
    else if c == 't' || c == 'f' then 1
    else if IsDigit(c) || c == '-' then 2
    else if c == QUOTE then 3
    else if c == '[' then 4
    else if c == '{' then 5
    else 6
  }

  lemma FirstCharacter(v: Json, ft: FloatText)
    requires Printable(v) && FaithfulFloats(ft)
    ensures Print(v, ft) != "" && KindOfText(Print(v, ft)[0]) == Kind(v) < 6
  {
    if v.Int? {
      IntText(v.n);
    }
  }

  /** The numbers' part: their texts are as injective as the numbers. */
  lemma NumbersAgree(v: Json, w: Json, ft: FloatText, rv: string, rw: string)
    requires FaithfulFloats(ft) && Printable(v) && Printable(w) && Kind(v) == 2 && Kind(w) == 2
    requires Delimited(rv) && Delimited(rw) && Print(v, ft) + rv == Print(w, ft) + rw
    ensures v == w && rv == rw
  {
    if v.Int? { IntText(v.n); }
    if w.Int? { IntText(w.n); }
    NumberTextsAgree(Print(v, ft), Print(w, ft), rv, rw);
    if v.Int? && w.Int? {
      DecimalIsInjective(v.n, w.n);
    }
  }

  /** A printed value can be told from any other, whatever may follow the two. */
  lemma {:induction false} PrintsAgree(v: Json, w: Json, ft: FloatText, rv: string, rw: string)
    requires FaithfulFloats(ft) && Printable(v) && Printable(w)
    requires Delimited(rv) && Delimited(rw) && Print(v, ft) + rv == Print(w, ft) + rw
    ensures v == w && rv == rw
    decreases v
  {
    FirstCharacter(v, ft);
    FirstCharacter(w, ft);
    assert (Print(v, ft) + rv)[0] == Print(v, ft)[0] && (Print(w, ft) + rw)[0] == Print(w, ft)[0];
    assert Kind(v) == Kind(w);
    match v
    case Null => SameTail("null", rv, rw);
    case Bool(x) =>
      assert Print(v, ft)[0] == Print(w, ft)[0];
      SameTail(Print(v, ft), rv, rw);
    case Int(_) => NumbersAgree(v, w, ft, rv, rw);
    case Float(_) => NumbersAgree(v, w, ft, rv, rw);
    case Str(x) => TokensAgree(x, w.s, rv, rw);
    case Arr(items) =>
      Associative("[", PrintItems(items, ft), rv);
      Associative("[", PrintItems(w.items, ft), rw);
      SameTail("[", PrintItems(items, ft) + rv, PrintItems(w.items, ft) + rw);
      ItemsAgree(items, w.items, ft, rv, rw);
    case Obj(members) =>
      Associative("{", PrintMembers(members, ft), rv);
      Associative("{", PrintMembers(w.members, ft), rw);
      SameTail("{", PrintMembers(members, ft) + rv, PrintMembers(w.members, ft) + rw);
      MembersAgree(members, w.members, ft, rv, rw);
  }

  /** What follows the first item: the end, or a comma and the other items. */
  function AfterItem(items: seq<Json>, ft: FloatText, rest: string): string
    requires items != []
  {
    (if |items| == 1 then "]" else "," + PrintItems(items[1..], ft)) + rest
  }

  lemma UnfoldItems(items: seq<Json>, ft: FloatText, rest: string)
    requires items != []
    ensures PrintItems(items, ft) + rest == Print(items[0], ft) + AfterItem(items, ft, rest)
    ensures AfterItem(items, ft, rest)
            == if |items| == 1 then "]" + rest else "," + (PrintItems(items[1..], ft) + rest)
  {
    var tail := if |items| == 1 then "]" else "," + PrintItems(items[1..], ft);
    assert PrintItems(items, ft) == Print(items[0], ft) + tail;
    Associative(Print(items[0], ft), tail, rest);
    Associative(",", PrintItems(items[1..], ft), rest);
  }

  lemma ItemsBegin(xs: seq<Json>, ys: seq<Json>, ft: FloatText, rx: string, ry: string)
    requires FaithfulFloats(ft) && xs != []
    requires forall i :: 0 <= i < |xs| ==> Printable(xs[i])
    requires forall i :: 0 <= i < |ys| ==> Printable(ys[i])
    requires PrintItems(xs, ft) + rx == PrintItems(ys, ft) + ry
    ensures ys != []
    ensures Print(xs[0], ft) + AfterItem(xs, ft, rx) == Print(ys[0], ft) + AfterItem(ys, ft, ry)
    ensures Delimited(AfterItem(xs, ft, rx)) && Delimited(AfterItem(ys, ft, ry))
  {
    EmptyItems(xs, ft, rx);
    EmptyItems(ys, ft, ry);
    UnfoldItems(xs, ft, rx);
    UnfoldItems(ys, ft, ry);
  }

  lemma ItemsGoOn(xs: seq<Json>, ys: seq<Json>, ft: FloatText, rx: string, ry: string)
    requires xs != [] && ys != [] && AfterItem(xs, ft, rx) == AfterItem(ys, ft, ry)
    ensures |xs| == 1 <==> |ys| == 1
    ensures |xs| == 1 ==> rx == ry
    ensures |xs| > 1 ==> PrintItems(xs[1..], ft) + rx == PrintItems(ys[1..], ft) + ry
  {
    UnfoldItems(xs, ft, rx);
    UnfoldItems(ys, ft, ry);
    assert AfterItem(xs, ft, rx)[0] == if |xs| == 1 then ']' else ',';
    assert AfterItem(ys, ft, ry)[0] == if |ys| == 1 then ']' else ',';
    SameTail("]", rx, ry);
    SameTail(",", PrintItems(xs[1..], ft) + rx, PrintItems(ys[1..], ft) + ry);
  }

  lemma {:induction false} ItemsAgree(xs: seq<Json>, ys: seq<Json>, ft: FloatText, rx: string, ry: string)
    requires FaithfulFloats(ft)
    requires forall i :: 0 <= i < |xs| ==> Printable(xs[i])
    requires forall i :: 0 <= i < |ys| ==> Printable(ys[i])
    requires PrintItems(xs, ft) + rx == PrintItems(ys, ft) + ry
    ensures xs == ys && rx == ry
    decreases xs
  {
    if xs == [] {
      EmptyItems(ys, ft, ry);
      SameTail("]", rx, ry);
    } else {
      ItemsBegin(xs, ys, ft, rx, ry);
      PrintsAgree(xs[0], ys[0], ft, AfterItem(xs, ft, rx), AfterItem(ys, ft, ry));
      ItemsGoOn(xs, ys, ft, rx, ry);
      if |xs| > 1 {
        ItemsAgree(xs[1..], ys[1..], ft, rx, ry);
      }
      assert xs == [xs[0]] + xs[1..] && ys == [ys[0]] + ys[1..];
    }
  }

  lemma EmptyItems(xs: seq<Json>, ft: FloatText, rest: string)
    requires FaithfulFloats(ft) && forall i :: 0 <= i < |xs| ==> Printable(xs[i])
    ensures PrintItems(xs, ft) != "" && ((PrintItems(xs, ft) + rest)[0] == ']' <==> xs == [])
  {
    if xs != [] {
      FirstCharacter(xs[0], ft);
      assert PrintItems(xs, ft)[0] == Print(xs[0], ft)[0];
    }
  }

  function AfterMember(members: seq<Member>, ft: FloatText, rest: string): string
    requires members != []
  {
    (if |members| == 1 then "}" else "," + PrintMembers(members[1..], ft)) + rest
  }

  lemma UnfoldMembers(members: seq<Member>, ft: FloatText, rest: string)
    requires members != []
    ensures PrintMembers(members, ft) + rest
            == StringToken(members[0].key, Plain)
               + (":" + (Print(members[0].value, ft) + AfterMember(members, ft, rest)))
    ensures AfterMember(members, ft, rest)
            == if |members| == 1 then "}" + rest else "," + (PrintMembers(members[1..], ft) + rest)
  {
    var key, value := StringToken(members[0].key, Plain), Print(members[0].value, ft);
    var tail := if |members| == 1 then "}" else "," + PrintMembers(members[1..], ft);
    Associative(",", PrintMembers(members[1..], ft), rest);
    assert PrintMembers(members, ft) == key + ":" + value + tail;
    calc {
      PrintMembers(members, ft) + rest;
      key + ":" + value + tail + rest;
      { Associative(key + ":" + value, tail, rest); }
      key + ":" + value + (tail + rest);
      { Associative(key + ":", value, tail + rest); }
      key + ":" + (value + (tail + rest));
      { Associative(key, ":", value + (tail + rest)); }
      key + (":" + (value + (tail + rest)));
    }
  }

  lemma MembersBegin(xs: seq<Member>, ys: seq<Member>, ft: FloatText, rx: string, ry: string)
    requires xs != [] && PrintMembers(xs, ft) + rx == PrintMembers(ys, ft) + ry
    ensures ys != [] && xs[0].key == ys[0].key
    ensures Print(xs[0].value, ft) + AfterMember(xs, ft, rx) == Print(ys[0].value, ft) + AfterMember(ys, ft, ry)
    ensures Delimited(AfterMember(xs, ft, rx)) && Delimited(AfterMember(ys, ft, ry))
  {
    EmptyMembers(xs, ft, rx);
    EmptyMembers(ys, ft, ry);
    UnfoldMembers(xs, ft, rx);
    UnfoldMembers(ys, ft, ry);
    var vx := Print(xs[0].value, ft) + AfterMember(xs, ft, rx);
    var vy := Print(ys[0].value, ft) + AfterMember(ys, ft, ry);
    TokensAgree(xs[0].key, ys[0].key, ":" + vx, ":" + vy);
    SameTail(":", vx, vy);
  }

  lemma MembersGoOn(xs: seq<Member>, ys: seq<Member>, ft: FloatText, rx: string, ry: string)
    requires xs != [] && ys != [] && AfterMember(xs, ft, rx) == AfterMember(ys, ft, ry)
    ensures |xs| == 1 <==> |ys| == 1
    ensures |xs| == 1 ==> rx == ry
    ensures |xs| > 1 ==> PrintMembers(xs[1..], ft) + rx == PrintMembers(ys[1..], ft) + ry
  {
    UnfoldMembers(xs, ft, rx);
    UnfoldMembers(ys, ft, ry);
    assert AfterMember(xs, ft, rx)[0] == if |xs| == 1 then '}' else ',';
    assert AfterMember(ys, ft, ry)[0] == if |ys| == 1 then '}' else ',';
    SameTail("}", rx, ry);
    SameTail(",", PrintMembers(xs[1..], ft) + rx, PrintMembers(ys[1..], ft) + ry);
  }

  lemma {:induction false} MembersAgree(xs: seq<Member>, ys: seq<Member>, ft: FloatText, rx: string, ry: string)
    requires FaithfulFloats(ft)
    requires forall i :: 0 <= i < |xs| ==> Printable(xs[i].value)
    requires forall i :: 0 <= i < |ys| ==> Printable(ys[i].value)
    requires PrintMembers(xs, ft) + rx == PrintMembers(ys, ft) + ry
    ensures xs == ys && rx == ry
    decreases xs
  {
    if xs == [] {
      EmptyMembers(ys, ft, ry);
      SameTail("}", rx, ry);
    } else {
      MembersBegin(xs, ys, ft, rx, ry);
      PrintsAgree(xs[0].value, ys[0].value, ft, AfterMember(xs, ft, rx), AfterMember(ys, ft, ry));
      MembersGoOn(xs, ys, ft, rx, ry);
      if |xs| > 1 {
        MembersAgree(xs[1..], ys[1..], ft, rx, ry);
      }
      assert xs == [xs[0]] + xs[1..] && ys == [ys[0]] + ys[1..];
    }
  }

  lemma EmptyMembers(xs: seq<Member>, ft: FloatText, rest: string)
    ensures PrintMembers(xs, ft) != "" && ((PrintMembers(xs, ft) + rest)[0] == '}' <==> xs == [])
  {
    if xs != [] {
      assert PrintMembers(xs, ft)[0] == QUOTE;
    }
  }

  /** The comparison is right: two parsed documents that are accepted give the same
      text exactly when they are the same JSON, and a document is rejected exactly when
      a number in it is infinite, not a number, or of magnitude 2^53 or more. */
  lemma CanonicalTextDecidesSame(a: Json, b: Json, ft: FloatText)
    requires FaithfulFloats(ft) && UniqueKeys(a) && UniqueKeys(b)
    ensures CanonicalText(a, ft).Some? <==> Acceptable(a)
    ensures Acceptable(a) <==> forall x :: Occurs(x, a) ==> SafeNumber(x)
    ensures Acceptable(a) && Acceptable(b) ==> (CanonicalText(a, ft) == CanonicalText(b, ft) <==> Same(a, b))
  {
    AcceptableExactly(a);
    if Acceptable(a) && Acceptable(b) {
      FormDecidesSame(a, b);
      FormIsPrintable(a);
      FormIsPrintable(b);
      if CanonicalText(a, ft) == CanonicalText(b, ft) {
        assert Print(Form(a), ft) + "" == Print(Form(b), ft) + "";
        PrintsAgree(Form(a), Form(b), ft, "", "");
      }
    }
  }
}

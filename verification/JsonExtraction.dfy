// ExtractNode._extract() of integration/tools.py: walking a JSON document along a list
// of keys. A key that is no number fans out over all elements of a list.
module JsonExtraction {

  datatype Option<T> = None | Some(value: T)

  datatype Json =
    | Null
    | Bool(b: bool)
    | Number(n: real)
    | Text(s: string)
    | List(items: seq<Json>)
    | Object(fields: map<string, Json>)

  // str.isdigit() on ASCII keys; int() of such a key.
  predicate IsDigits(key: string) {
    key != "" && forall i :: 0 <= i < |key| ==> '0' <= key[i] <= '9'
  }

  function IntOf(key: string): nat
    requires forall i :: 0 <= i < |key| ==> '0' <= key[i] <= '9'
  {
    if key == "" then 0
    else 10 * IntOf(key[..|key| - 1]) + (key[|key| - 1] - '0') as nat
  }

  // None stands for MissedValue.
  function Extract(data: Json, keys: seq<string>): Option<Json>
    decreases |keys|, data, 1
  {
    if keys == [] then Some(data)
    else
      var key, remaining := keys[0], keys[1..];
      match data
      case List(items) =>
        if IsDigits(key) then
          if IntOf(key) < |items| then Extract(items[IntOf(key)], remaining) else None
        else
          Some(List(ExtractEach(items, keys)))
      case Object(fields) =>
        if key in fields then Extract(fields[key], remaining) else None
      case _ => None
  }

  // The results for the elements of a list, the missed ones filtered out.
  function ExtractEach(items: seq<Json>, keys: seq<string>): seq<Json>
    decreases |keys|, items, 0
  {
    if items == [] then []
    else
      var first := Extract(items[0], keys);
      (if first.Some? then [first.value] else []) + ExtractEach(items[1..], keys)
  }

  // Walking along the keys meets a list with a key that is no number.
  predicate FansOut(data: Json, keys: seq<string>)
    decreases |keys|
  {
    keys != [] &&
    match data
    case List(items) =>
      if IsDigits(keys[0]) then IntOf(keys[0]) < |items| && FansOut(items[IntOf(keys[0])], keys[1..]) else true
    case Object(fields) => keys[0] in fields && FansOut(fields[keys[0]], keys[1..])
    case _ => false
  }

  // ------------------------------------------------------------------ composition

  lemma SplitKeys(p: seq<string>, q: seq<string>)
    requires p != []
    ensures (p + q)[0] == p[0] && (p + q)[1..] == p[1..] + q
  {
  }

  // A path that misses still misses when it is made longer.
  lemma {:induction false} MissedStaysMissed(data: Json, p: seq<string>, q: seq<string>)
    requires Extract(data, p).None?
    ensures Extract(data, p + q).None?
    decreases |p|
  {
    SplitKeys(p, q);
    match data
    case List(items) =>
      if IntOf(p[0]) < |items| { MissedStaysMissed(items[IntOf(p[0])], p[1..], q); }
    case Object(fields) =>
      if p[0] in fields { MissedStaysMissed(fields[p[0]], p[1..], q); }
    case _ =>
  }

  predicate StartsPlain(q: seq<string>) {
    q == [] || !IsDigits(q[0])
  }

  // Extracting along p and then along q is extracting along p + q, as long as q does not
  // index into what p has collected from a list.
  lemma {:induction false} ExtractionComposes(data: Json, p: seq<string>, q: seq<string>)
    requires Extract(data, p).Some? && (StartsPlain(q) || !FansOut(data, p))
    ensures Extract(data, p + q) == Extract(Extract(data, p).value, q)
    decreases |p|, data, 1
  {
    if p == [] {
      assert p + q == q;
    } else if q == [] {
      assert p + q == p;
    } else {
      SplitKeys(p, q);
      match data
      case List(items) =>
        if IsDigits(p[0]) {
          ExtractionComposes(items[IntOf(p[0])], p[1..], q);
        } else {
          EachComposes(items, p, q);
        }
      case Object(fields) =>
        ExtractionComposes(fields[p[0]], p[1..], q);
    }
  }

  lemma {:induction false} EachComposes(items: seq<Json>, p: seq<string>, q: seq<string>)
    requires p != [] && q != [] && !IsDigits(q[0])
    ensures ExtractEach(items, p + q) == ExtractEach(ExtractEach(items, p), q)
    decreases |p|, items, 0
  {
    if items != [] {
      EachComposes(items[1..], p, q);
      var first, others := Extract(items[0], p), ExtractEach(items[1..], p);
      if first.Some? {
        ExtractionComposes(items[0], p, q);
        assert ([first.value] + others)[1..] == others;
      } else {
        MissedStaysMissed(items[0], p, q);
        assert [] + others == others;
      }
    }
  }

  // ------------------------------------------------------------------ the condition is exact

  function Nines(n: nat): (key: string)
    ensures |key| == n && forall i :: 0 <= i < n ==> key[i] == '9'
  {
    if n == 0 then "" else Nines(n - 1) + "9"
  }

  lemma {:induction false} NinesAreLarge(n: nat)
    ensures IntOf(Nines(n)) >= n
  {
    if n > 0 {
      assert Nines(n)[..n - 1] == Nines(n - 1);
      NinesAreLarge(n - 1);
    }
  }

  lemma {:induction false} FanGivesList(data: Json, p: seq<string>, q: seq<string>)
    requires FansOut(data, p) && Extract(data, p).Some?
    ensures Extract(data, p).value.List? && Extract(data, p + q).Some?
    decreases |p|
  {
    SplitKeys(p, q);
    match data
    case List(items) =>
      if IsDigits(p[0]) { FanGivesList(items[IntOf(p[0])], p[1..], q); }
    case Object(fields) => FanGivesList(fields[p[0]], p[1..], q);
  }

  // The composition law holds for all continuations of p exactly if p does not fan out.
  lemma CompositionIsExact(data: Json, p: seq<string>)
    requires Extract(data, p).Some?
    ensures (forall q :: Extract(data, p + q) == Extract(Extract(data, p).value, q)) <==> !FansOut(data, p)
  {
    if FansOut(data, p) {
      FanGivesList(data, p, []);
      var items := Extract(data, p).value.items;
      var q := [Nines(|items| + 1)];
      NinesAreLarge(|items| + 1);
      FanGivesList(data, p, q);
      assert Extract(List(items), q).None?;
      assert Extract(data, p + q) != Extract(Extract(data, p).value, q);
    } else {
      forall q ensures Extract(data, p + q) == Extract(Extract(data, p).value, q) {
        ExtractionComposes(data, p, q);
      }
    }
  }

  // ------------------------------------------------------------------ what a key selects

  function Digit(n: nat): char
    requires n < 10
  {
    "0123456789"[n]
  }

  // The decimal text of a number.
  function Decimal(n: nat): (key: string) {
    if n < 10 then [Digit(n)] else Decimal(n / 10) + [Digit(n % 10)]
  }

  lemma {:induction false} DecimalIsRead(n: nat)
    ensures IsDigits(Decimal(n)) && IntOf(Decimal(n)) == n
  {
    if n >= 10 {
      DecimalIsRead(n / 10);
      assert Decimal(n)[..|Decimal(n)| - 1] == Decimal(n / 10);
    } else {
      assert Decimal(n)[..0] == "";
    }
  }

  lemma {:induction false} ZerosAreRead(zeros: string, n: nat)
    requires forall i :: 0 <= i < |zeros| ==> zeros[i] == '0'
    ensures IsDigits(zeros + Decimal(n)) && IntOf(zeros + Decimal(n)) == n
    decreases n, |zeros|
  {
    var key := zeros + Decimal(n);
    DecimalIsRead(n);
    assert forall i :: 0 <= i < |key| ==> key[i] == if i < |zeros| then zeros[i] else Decimal(n)[i - |zeros|];
    if n >= 10 {
      ZerosAreRead(zeros, n / 10);
      assert key[..|key| - 1] == zeros + Decimal(n / 10);
    } else {
      assert key[..|key| - 1] == zeros;
      OnlyZeros(zeros);
    }
  }

  lemma {:induction false} OnlyZeros(zeros: string)
    requires forall i :: 0 <= i < |zeros| ==> zeros[i] == '0'
    ensures IntOf(zeros) == 0
  {
    if zeros != "" { OnlyZeros(zeros[..|zeros| - 1]); }
  }

  // On a list, the text of a number, with leading zeros or without, goes on with the element
  // of that number, counted from 0, and misses beyond the end.
  lemma NumberSelects(items: seq<Json>, zeros: string, n: nat, q: seq<string>)
    requires forall i :: 0 <= i < |zeros| ==> zeros[i] == '0'
    ensures Extract(List(items), [zeros + Decimal(n)] + q) == if n < |items| then Extract(items[n], q) else None
  {
    ZerosAreRead(zeros, n);
    SplitKeys([zeros + Decimal(n)], q);
    assert [] + q == q;
  }

  // The values among some results, in their order.
  function Found(results: seq<Option<Json>>): seq<Json> {
    if results == [] then []
    else
      var front := Found(results[..|results| - 1]);
      match results[|results| - 1]
      case Some(value) => front + [value]
      case None => front
  }

  function Results(items: seq<Json>, keys: seq<string>): seq<Option<Json>> {
    seq(|items|, i requires 0 <= i < |items| => Extract(items[i], keys))
  }

  lemma {:induction false} FoundOfMore(first: Option<Json>, results: seq<Option<Json>>)
    ensures Found([first] + results) == (if first.Some? then [first.value] else []) + Found(results)
  {
    var all := [first] + results;
    if results == [] {
      assert all[..|all| - 1] == [];
    } else {
      FoundOfMore(first, results[..|results| - 1]);
      assert all[..|all| - 1] == [first] + results[..|results| - 1];
      assert all[|all| - 1] == results[|results| - 1];
    }
  }

  lemma {:induction false} EachIsFound(items: seq<Json>, keys: seq<string>)
    ensures ExtractEach(items, keys) == Found(Results(items, keys))
  {
    if items != [] {
      EachIsFound(items[1..], keys);
      assert Results(items, keys) == [Extract(items[0], keys)] + Results(items[1..], keys);
      FoundOfMore(Extract(items[0], keys), Results(items[1..], keys));
    }
  }

  // On a list, any other key collects what is found along the whole path in each element, in
  // order, leaving out the elements that miss.
  lemma OtherKeyCollects(items: seq<Json>, key: string, q: seq<string>)
    requires key == "" || exists i :: 0 <= i < |key| && !('0' <= key[i] <= '9')
    ensures Extract(List(items), [key] + q) == Some(List(Found(Results(items, [key] + q))))
  {
    EachIsFound(items, [key] + q);
  }

  // On an object a key goes on with its field, and on anything else it misses.
  lemma KeySelects(data: Json, key: string, q: seq<string>)
    ensures data.Object? ==> Extract(data, [key] + q) == if key in data.fields then Extract(data.fields[key], q) else None
    ensures !data.Object? && !data.List? ==> Extract(data, [key] + q) == None
  {
    SplitKeys([key], q);
    assert [] + q == q;
  }
}

/** `clamp` and `classNames`. */
module Utils {
  import opened Wrappers
  import opened Strings

  /** `Math.max(min, Math.min(max, value))` */
  function Clamp(value: int, min: int, max: int): (r: int)
    ensures r >= min
    ensures min <= max ==> min <= r <= max
    ensures min <= max && min <= value <= max ==> r == value
    ensures value < min ==> r == min
    ensures min <= max < value ==> r == max
  {
    var upper := if max <= value then max else value;
    if min >= upper then min else upper
  }

  lemma ClampIdempotent(value: int, min: int, max: int)
    ensures Clamp(Clamp(value, min, max), min, max) == Clamp(value, min, max)
  {
  }

  lemma ClampExamples()
    ensures Clamp(5, 10, 20) == 10 && Clamp(25, 10, 20) == 20 && Clamp(15, 10, 20) == 15
    ensures Clamp(10, 10, 20) == 10 && Clamp(20, 10, 20) == 20
  {
  }

  /** An argument `Boolean` keeps: present and not the empty string. null,
      undefined and false are all `None`. */
  predicate IsTruthy(part: Option<string>)
  {
    part.Some? && part.value != ""
  }

  /** `classes.filter(Boolean)`, order kept. */
  function TruthyParts(parts: seq<Option<string>>): (r: seq<string>)
    ensures |r| <= |parts|
    ensures forall i :: 0 <= i < |r| ==> r[i] != ""
    ensures r == [] <==> forall i :: 0 <= i < |parts| ==> !IsTruthy(parts[i])
  {
    if |parts| == 0 then []
    else if IsTruthy(parts[0]) then [parts[0].value] + TruthyParts(parts[1..])
    else
      var rest := TruthyParts(parts[1..]);
      assert forall i :: 1 <= i < |parts| ==> parts[i] == parts[1..][i - 1];
      rest
  }

  /** Exactly the truthy arguments are kept: every kept name was passed, and
      every truthy argument is kept. */
  lemma {:induction false} TruthyPartsMembers(parts: seq<Option<string>>)
    ensures forall j :: 0 <= j < |TruthyParts(parts)| ==> Some(TruthyParts(parts)[j]) in parts
    ensures forall i :: 0 <= i < |parts| && IsTruthy(parts[i]) ==> parts[i].value in TruthyParts(parts)
  {
    if |parts| > 0 {
      TruthyPartsMembers(parts[1..]);
      assert forall i :: 1 <= i < |parts| ==> parts[i] == parts[1..][i - 1];
      assert forall x :: x in parts[1..] ==> x in parts;
    }
  }

  /** Filtering distributes over concatenation: the kept names of two argument
      lists are those of the first followed by those of the second. */
  lemma {:induction false} TruthyPartsAppend(a: seq<Option<string>>, b: seq<Option<string>>)
    ensures TruthyParts(a + b) == TruthyParts(a) + TruthyParts(b)
  {
    if |a| > 0 {
      TruthyPartsAppend(a[1..], b);
      assert a + b == [a[0]] + (a[1..] + b);
      assert a == [a[0]] + a[1..];
      TruthyPartsCons(a[0], a[1..] + b);
      TruthyPartsCons(a[0], a[1..]);
    } else {
      assert a + b == b;
    }
  }

  /** `classes.filter(Boolean).join(' ')` */
  function ClassNames(parts: seq<Option<string>>): (s: string)
    ensures (forall i :: 0 <= i < |parts| ==> !IsTruthy(parts[i])) ==> s == ""
  {
    Join(TruthyParts(parts), " ")
  }

  /** Splitting the result at spaces gives back the kept class names in order,
      when none of them contains a space. */
  lemma ClassNamesSplit(parts: seq<Option<string>>)
    requires exists i :: 0 <= i < |parts| && IsTruthy(parts[i])
    requires forall i :: 0 <= i < |parts| && parts[i].Some? ==> ' ' !in parts[i].value
    ensures Split(ClassNames(parts), ' ') == TruthyParts(parts)
  {
    TruthyPartsWithoutSpaces(parts);
    SplitJoin(TruthyParts(parts), ' ');
  }

  lemma {:induction false} TruthyPartsWithoutSpaces(parts: seq<Option<string>>)
    requires forall i :: 0 <= i < |parts| && parts[i].Some? ==> ' ' !in parts[i].value
    ensures forall j :: 0 <= j < |TruthyParts(parts)| ==> ' ' !in TruthyParts(parts)[j]
  {
    if |parts| > 0 {
      assert forall i :: 1 <= i < |parts| ==> parts[i] == parts[1..][i - 1];
      TruthyPartsWithoutSpaces(parts[1..]);
    }
  }

  lemma TruthyPartsCons(part: Option<string>, rest: seq<Option<string>>)
    ensures IsTruthy(part) ==> TruthyParts([part] + rest) == [part.value] + TruthyParts(rest)
    ensures !IsTruthy(part) ==> TruthyParts([part] + rest) == TruthyParts(rest)
  {
    assert ([part] + rest)[1..] == rest;
  }

  lemma JoinThree(a: string, b: string, c: string)
    ensures Join([a, b, c], " ") == a + " " + b + " " + c
  {
    assert [a, b, c][1..] == [b, c];
    assert [b, c][1..] == [c];
    assert Join([c], " ") == c;
    assert Join([b, c], " ") == b + " " + c;
    assert Join([a, b, c], " ") == a + " " + (b + " " + c);
  }

  /** Three class names are joined in order by single spaces. */
  lemma ClassNamesJoinExample()
    ensures ClassNames([Some("class1"), Some("class2"), Some("class3")]) == "class1 class2 class3"
  {
    var c1, c2, c3 := Some("class1"), Some("class2"), Some("class3");
    TruthyPartsCons(c3, []);
    TruthyPartsCons(c2, [c3]);
    TruthyPartsCons(c1, [c2, c3]);
    JoinThree("class1", "class2", "class3");
  }

  /** The falsy arguments between them are dropped. */
  lemma ClassNamesFalsyExample()
    ensures ClassNames([Some("class1"), None, Some("class2"), None, None, Some("class3")]) == "class1 class2 class3"
  {
    var c1, c2, c3 := Some("class1"), Some("class2"), Some("class3");
    TruthyPartsCons(c3, []);
    TruthyPartsCons(None, [c3]);
    TruthyPartsCons(None, [None, c3]);
    TruthyPartsCons(c2, [None, None, c3]);
    TruthyPartsCons(None, [c2, None, None, c3]);
    TruthyPartsCons(c1, [None, c2, None, None, c3]);
    JoinThree("class1", "class2", "class3");
  }

  /** No arguments, or only falsy ones, give the empty string. */
  lemma ClassNamesEmptyExamples()
    ensures ClassNames([]) == ""
    ensures ClassNames([None, None, None]) == ""
  {
  }
}

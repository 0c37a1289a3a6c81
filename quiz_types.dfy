/** The quiz entities the stores hold, as the code reads them: every element
    carries an integer `id`, a question lists its `answers` and a quiz its
    `questions`. Only the fields the modelled code touches are kept. */
module QuizTypes {

  datatype Choice = Choice(id: int, text: string, isCorrect: bool)

  datatype Question = Question(id: int, text: string, answers: seq<Choice>)

  /** `list.filter(x => idOf(x) !== id)`: the elements with another id, in
      their original order. */
  function WithoutId<T>(s: seq<T>, id: int, idOf: T -> int): (r: seq<T>)
    ensures |r| <= |s|
    ensures forall k :: 0 <= k < |r| ==> idOf(r[k]) != id
  {
    if s == [] then []
    else if idOf(s[0]) != id then [s[0]] + WithoutId(s[1..], id, idOf)
    else WithoutId(s[1..], id, idOf)
  }

  /** An element survives exactly when it was there and has another id. */
  lemma {:induction false} WithoutIdMembers<T>(s: seq<T>, id: int, idOf: T -> int, x: T)
    ensures x in WithoutId(s, id, idOf) <==> x in s && idOf(x) != id
  {
    if s != [] {
      WithoutIdMembers(s[1..], id, idOf, x);
      assert x in s <==> x == s[0] || x in s[1..];
    }
  }

  /** Filtering works piecewise, so the survivors keep their relative order. */
  lemma {:induction false} WithoutIdAppend<T>(a: seq<T>, b: seq<T>, id: int, idOf: T -> int)
    ensures WithoutId(a + b, id, idOf) == WithoutId(a, id, idOf) + WithoutId(b, id, idOf)
  {
    if a == [] {
      assert a + b == b;
    } else {
      assert (a + b)[0] == a[0];
      assert (a + b)[1..] == a[1..] + b;
      WithoutIdAppend(a[1..], b, id, idOf);
    }
  }

  /** Filtering out an id nobody has changes nothing. */
  lemma {:induction false} WithoutAbsentId<T>(s: seq<T>, id: int, idOf: T -> int)
    requires forall k :: 0 <= k < |s| ==> idOf(s[k]) != id
    ensures WithoutId(s, id, idOf) == s
  {
    if s != [] {
      WithoutAbsentId(s[1..], id, idOf);
    }
  }

  /** Filtering twice by the same id is filtering once. */
  lemma WithoutIdIdempotent<T>(s: seq<T>, id: int, idOf: T -> int)
    ensures WithoutId(WithoutId(s, id, idOf), id, idOf) == WithoutId(s, id, idOf)
  {
    WithoutAbsentId(WithoutId(s, id, idOf), id, idOf);
  }
}

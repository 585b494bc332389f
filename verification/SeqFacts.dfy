/** Small facts about sequences that several modules share. */
module SeqFacts {

  ghost predicate NoDup<T>(s: seq<T>) {
    forall i, j :: 0 <= i < j < |s| ==> s[i] != s[j]
  }

  /** `s` without the element at index `i`. */
  function DropAt<T>(s: seq<T>, i: nat): seq<T>
    requires i < |s|
  {
    s[..i] + s[i + 1..]
  }

  /** `s` with `x` put in front of index `i`. */
  function InsertAt<T>(s: seq<T>, i: nat, x: T): seq<T>
    requires i <= |s|
  {
    s[..i] + [x] + s[i..]
  }

  lemma InsertFront<T>(s: seq<T>, x: T)
    ensures InsertAt(s, 0, x) == [x] + s
  {
  }

  function Reverse<T>(s: seq<T>): (r: seq<T>)
    ensures |r| == |s|
    ensures forall i :: 0 <= i < |s| ==> r[i] == s[|s| - 1 - i]
  {
    if s == [] then [] else Reverse(s[1..]) + [s[0]]
  }

  ghost function IndexOf<T>(s: seq<T>, x: T): (i: nat)
    requires x in s
    ensures i < |s| && s[i] == x
  {
    var i :| 0 <= i < |s| && s[i] == x; i
  }

  lemma NoDupDrop<T>(s: seq<T>, i: nat)
    requires i < |s| && NoDup(s)
    ensures NoDup(DropAt(s, i))
    ensures forall x :: x in DropAt(s, i) <==> x in s && x != s[i]
  {
    var d := DropAt(s, i);
    forall x | x in s && x != s[i] ensures x in d {
      var j := IndexOf(s, x);
      assert d[if j < i then j else j - 1] == x;
    }
  }

  lemma NoDupInsert<T>(s: seq<T>, i: nat, x: T)
    requires i <= |s| && NoDup(s) && x !in s
    ensures NoDup(InsertAt(s, i, x))
    ensures forall y :: y in InsertAt(s, i, x) <==> y in s || y == x
  {
    var d := InsertAt(s, i, x);
    assert d[i] == x;
    forall y | y in s ensures y in d {
      var j := IndexOf(s, y);
      assert d[if j < i then j else j + 1] == y;
    }
  }

  lemma NoDupReverse<T>(s: seq<T>)
    requires NoDup(s)
    ensures NoDup(Reverse(s))
    ensures forall x :: x in Reverse(s) <==> x in s
  {
    var r := Reverse(s);
    forall x | x in s ensures x in r {
      var j := IndexOf(s, x);
      assert r[|s| - 1 - j] == x;
    }
  }

  lemma NoDupConcat<T>(s: seq<T>, t: seq<T>)
    requires NoDup(s) && NoDup(t)
    requires forall x :: x in s ==> x !in t
    ensures NoDup(s + t)
  {
    var c := s + t;
    forall i, j | 0 <= i < j < |c| ensures c[i] != c[j] {
      if i < |s| <= j {
        assert c[i] in s && c[j] in t;
      }
    }
  }
}

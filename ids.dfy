/**
 * The read-max-then-increment identifier scheme shared by the payment, access,
 * movie and user allocators: take the greatest existing id in binary string
 * order, strip the prefix, parse the number, add one, format.
 */
module Ids {

  import opened Common
  import opened Text

  /** `m` is the greatest element of `ids` in binary string order. */
  predicate IsLexMax(m: string, ids: set<string>)
  {
    m in ids && forall x :: x in ids ==> LexLe(x, m)
  }

  /** Every non-empty set of strings has a greatest element. */
  lemma {:induction false} LexMaxExists(ids: set<string>)
    requires ids != {}
    ensures exists m :: IsLexMax(m, ids)
  {
    var x :| x in ids;
    var rest := ids - {x};
    if rest == {} {
      assert ids == {x};
      LexLeReflexive(x);
      assert IsLexMax(x, ids);
    } else {
      LexMaxExists(rest);
      var m :| IsLexMax(m, rest);
      LexLeTotal(m, x);
      if LexLe(m, x) {
        forall y | y in ids ensures LexLe(y, x) {
          if y == x { LexLeReflexive(x); } else { LexLeTransitive(y, m, x); }
        }
        assert IsLexMax(x, ids);
      } else {
        assert IsLexMax(m, ids);
      }
    }
  }

  /** The greatest element is unique. */
  lemma LexMaxUnique(a: string, b: string, ids: set<string>)
    requires IsLexMax(a, ids) && IsLexMax(b, ids)
    ensures a == b
  {
    LexLeAntisymmetric(a, b);
  }

  /** The id the sort `{ id: -1 }` puts first. */
  ghost function LexMax(ids: set<string>): (m: string)
    requires ids != {}
    ensures IsLexMax(m, ids)
  {
    LexMaxExists(ids);
    var m :| IsLexMax(m, ids);
    m
  }

  /**
   * `${prefix}${parseInt(last.replace(prefix, '')) + 1}`; a suffix that does
   * not start with a digit parses to NaN and formats as "NaN".
   */
  function Successor(prefix: string, last: string): (id: string)
    ensures |id| > |prefix| && id[..|prefix|] == prefix
  {
    match ParseInt(RemoveFirst(last, prefix))
    case Some(n) => prefix + NatToString(n + 1)
    case None => prefix + "NaN"
  }

  /** The successor of a well-formed id is the id of the next number. */
  lemma SuccessorOfFormatted(prefix: string, n: nat)
    ensures Successor(prefix, prefix + NatToString(n)) == prefix + NatToString(n + 1)
  {
    RemoveFirstOfPrefixed(prefix, NatToString(n));
    ParseIntOfNatToString(n);
  }

  /** What the allocator answers for the existing ids `ids`. */
  ghost function AllocatedId(prefix: string, seed: string, ids: set<string>): (id: string)
    ensures ids == {} ==> id == seed
    ensures ids != {} ==> |id| > |prefix| && id[..|prefix|] == prefix
    ensures ids != {} ==> exists last :: IsLexMax(last, ids) && id == Successor(prefix, last)
  {
    if ids == {} then seed else Successor(prefix, LexMax(ids))
  }

  /**
   * The allocator: the seed for an empty collection, otherwise the successor
   * of the greatest existing id.
   */
  method NextId(prefix: string, seed: string, ids: set<string>) returns (id: string)
    ensures ids == {} ==> id == seed
    ensures ids != {} ==> exists last :: IsLexMax(last, ids) && id == Successor(prefix, last)
    ensures id == AllocatedId(prefix, seed, ids)
  {
    if ids == {} {
      return seed;
    }
    LexMaxExists(ids);
    var last :| IsLexMax(last, ids);
    LexMaxUnique(last, LexMax(ids), ids);
    id := Successor(prefix, last);
  }

  // ------------------------------------------- when the scheme is sound

  /** Under a common prefix the order is decided by what follows it. */
  lemma {:induction false} LexLeCommonPrefix(p: string, a: string, b: string)
    ensures LexLe(p + a, p + b) <==> LexLe(a, b)
  {
    if p == [] {
      assert p + a == a && p + b == b;
    } else {
      assert (p + a)[0] == p[0] && (p + a)[1..] == p[1..] + a;
      assert (p + b)[0] == p[0] && (p + b)[1..] == p[1..] + b;
      LexLeCommonPrefix(p[1..], a, b);
    }
  }

  /** Comparing two strings whose heads have one length compares the heads first. */
  lemma {:induction false} LexLeSameLengthHeads(h1: string, t1: string, h2: string, t2: string)
    requires |h1| == |h2| && LexLe(h1 + t1, h2 + t2)
    ensures LexLe(h1, h2)
    ensures h1 == h2 ==> LexLe(t1, t2)
  {
    if h1 == [] {
      assert h1 + t1 == t1 && h2 + t2 == t2;
    } else {
      assert (h1 + t1)[0] == h1[0] && (h1 + t1)[1..] == h1[1..] + t1;
      assert (h2 + t2)[0] == h2[0] && (h2 + t2)[1..] == h2[1..] + t2;
      if h1[0] == h2[0] {
        LexLeSameLengthHeads(h1[1..], t1, h2[1..], t2);
        if h1[1..] == h2[1..] {
          assert h1 == [h1[0]] + h1[1..] && h2 == [h2[0]] + h2[1..];
        }
      }
    }
  }

  /** Decimal strings of one width are in the order of the numbers they denote. */
  lemma {:induction false} SameWidthOrder(a: nat, b: nat)
    requires |NatToString(a)| == |NatToString(b)|
    requires LexLe(NatToString(a), NatToString(b))
    ensures a <= b
  {
    if a >= 10 {
      var ha, hb := NatToString(a / 10), NatToString(b / 10);
      var da, db := DigitChar(a % 10), DigitChar(b % 10);
      assert NatToString(a) == ha + [da] && NatToString(b) == hb + [db];
      LexLeSameLengthHeads(ha, [da], hb, [db]);
      SameWidthOrder(a / 10, b / 10);
      if a / 10 == b / 10 {
        assert LexLe([da], [db]);
      }
    }
  }

  /** Every id is the prefix followed by a number of `width` digits. */
  ghost predicate SameWidthIds(prefix: string, ids: set<string>, width: nat)
  {
    forall x :: x in ids ==> exists n: nat :: x == prefix + NatToString(n) && |NatToString(n)| == width
  }

  /**
   * While all ids are well-formed with one digit width, the allocator returns
   * the id of the numeric successor of the greatest one, and that id is fresh
   * as long as the successor still has the same width.
   */
  lemma AllocatedFreshWithinWidth(prefix: string, seed: string, ids: set<string>, width: nat)
    requires ids != {} && SameWidthIds(prefix, ids, width)
    ensures exists n: nat ::
      && LexMax(ids) == prefix + NatToString(n)
      && AllocatedId(prefix, seed, ids) == prefix + NatToString(n + 1)
      && (|NatToString(n + 1)| == width ==> AllocatedId(prefix, seed, ids) !in ids)
  {
    var m := LexMax(ids);
    var n: nat :| m == prefix + NatToString(n) && |NatToString(n)| == width;
    SuccessorOfFormatted(prefix, n);
    var c := prefix + NatToString(n + 1);
    if |NatToString(n + 1)| == width && c in ids {
      LexLeCommonPrefix(prefix, NatToString(n + 1), NatToString(n));
      SameWidthOrder(n + 1, n);
      assert false;
    }
  }

  /**
   * At the width boundary the string order and the numeric order part ways:
   * "99999" sorts after "100000", so once both ids exist the allocator keeps
   * answering the id that already exists.
   */
  lemma AllocatorRepeatsAtWidthBoundary(prefix: string, seed: string)
    ensures var ids := {prefix + "99999", prefix + "100000"};
      AllocatedId(prefix, seed, ids) == prefix + "100000" && AllocatedId(prefix, seed, ids) in ids
  {
    var ids := {prefix + "99999", prefix + "100000"};
    LexLeCommonPrefix(prefix, "100000", "99999");
    LexLeReflexive(prefix + "99999");
    assert IsLexMax(prefix + "99999", ids);
    LexMaxUnique(prefix + "99999", LexMax(ids), ids);
    assert NatToString(9) == "9";
    assert NatToString(99) == "99";
    assert NatToString(999) == "999";
    assert NatToString(9999) == "9999";
    assert NatToString(99999) == "99999";
    assert NatToString(10) == "10";
    assert NatToString(100) == "100";
    assert NatToString(1000) == "1000";
    assert NatToString(10000) == "10000";
    assert NatToString(100000) == "100000";
    SuccessorOfFormatted(prefix, 99999);
  }
}

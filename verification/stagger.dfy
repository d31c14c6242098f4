/**
 * Stagger classes for the scroll animations. Each service card, gallery item
 * and contact item gets the classes `slide-up` and `stagger-N`, where `N` is
 * written in decimal by a template literal. Service cards and contact items
 * count from 1 in document order; gallery items cycle through 1, 2, 3.
 */
module Stagger {

  /** The element groups that receive a stagger class. */
  datatype Kind = ServiceCard | GalleryItem | ContactItem

  /** The decimal digit character for `d`. */
  function Digit(d: nat): (c: char)
    requires d < 10
    ensures '0' <= c <= '9'
    ensures c as int - '0' as int == d
  {
    ('0' as int + d) as char
  }

  /** A non-negative integer written in plain decimal digits, without leading zeros. */
  function Decimal(n: nat): (r: string)
    ensures 1 <= |r|
    ensures n < 10 <==> |r| == 1
    ensures forall i | 0 <= i < |r| :: '0' <= r[i] <= '9'
    ensures r[0] == '0' ==> n == 0
    decreases n
  {
    if n < 10 then [Digit(n)] else Decimal(n / 10) + [Digit(n % 10)]
  }

  /** The number a string of decimal digits denotes. */
  function ValueOf(s: string): int
    decreases |s|
  {
    if |s| == 0 then 0 else 10 * ValueOf(s[..|s| - 1]) + (s[|s| - 1] as int - '0' as int)
  }

  /** Reading back a decimal numeral gives the number written. */
  lemma {:induction false} DecimalRoundTrip(n: nat)
    ensures ValueOf(Decimal(n)) == n
    decreases n
  {
    var s := Decimal(n);
    if n >= 10 {
      assert s[..|s| - 1] == Decimal(n / 10);
      DecimalRoundTrip(n / 10);
    }
  }

  /** Different numbers have different numerals. */
  lemma DecimalInjective(a: nat, b: nat)
    requires Decimal(a) == Decimal(b)
    ensures a == b
  {
    DecimalRoundTrip(a);
    DecimalRoundTrip(b);
  }

  /**
   * The class name `stagger-N`: the prefix, then the canonical numeral (no
   * leading zero unless it is the single digit `0`) that reads back as `n`.
   */
  function StaggerClass(n: nat): (r: string)
    ensures |r| > 8 && r[..8] == "stagger-"
    ensures forall i | 8 <= i < |r| :: '0' <= r[i] <= '9'
    ensures r[8] == '0' ==> |r| == 9
    ensures ValueOf(r[8..]) == n
  {
    DecimalRoundTrip(n);
    var r := "stagger-" + Decimal(n);
    assert r[8..] == Decimal(n);
    r
  }

  /** Different numbers give different class names. */
  lemma StaggerClassInjective(a: nat, b: nat)
    requires StaggerClass(a) == StaggerClass(b)
    ensures a == b
  {
  }

  /**
   * The stagger number of the element at `index` in its group: one more than
   * the index for cards and contact items, and the residue 1, 2 or 3 that is
   * congruent to index + 1 modulo 3 for gallery items.
   */
  function StaggerNumber(kind: Kind, index: nat): (k: nat)
    ensures 1 <= k
    ensures !kind.GalleryItem? ==> k > index && k - index == 1
    ensures kind.GalleryItem? ==> k <= 3 && (index + 1 - k) % 3 == 0
  {
    if kind.GalleryItem? then index % 3 + 1 else index + 1
  }

  /** Gallery stagger numbers repeat every three items. */
  lemma GalleryPeriodic(index: nat)
    ensures StaggerNumber(GalleryItem, index + 3) == StaggerNumber(GalleryItem, index)
  {
  }

  /** Gallery items only ever get one of three class names. */
  lemma GalleryClassesAreThree(index: nat)
    ensures StaggerClass(StaggerNumber(GalleryItem, index)) in {"stagger-1", "stagger-2", "stagger-3"}
  {
    var k := StaggerNumber(GalleryItem, index);
    if k == 1 {
      assert StaggerClass(k) == "stagger-1";
    } else if k == 2 {
      assert StaggerClass(k) == "stagger-2";
    } else {
      assert StaggerClass(k) == "stagger-3";
    }
  }

  /** Two different cards (or two different contact items) never share a stagger class. */
  lemma CountedClassesDistinct(kind: Kind, i: nat, j: nat)
    requires !kind.GalleryItem? && i != j
    ensures StaggerClass(StaggerNumber(kind, i)) != StaggerClass(StaggerNumber(kind, j))
  {
    if StaggerClass(StaggerNumber(kind, i)) == StaggerClass(StaggerNumber(kind, j)) {
      StaggerClassInjective(StaggerNumber(kind, i), StaggerNumber(kind, j));
    }
  }

  /** The classes added to each of `count` elements of a group, in document order. */
  method AddStaggerClasses(kind: Kind, count: nat) returns (classes: seq<seq<string>>)
    ensures |classes| == count
    ensures forall i | 0 <= i < count :: classes[i] == ["slide-up", StaggerClass(StaggerNumber(kind, i))]
    ensures !kind.GalleryItem? ==>
      forall i, j | 0 <= i < j < count :: classes[i][1] != classes[j][1]
    ensures kind.GalleryItem? ==>
      forall i | 0 <= i < count :: classes[i][1] in {"stagger-1", "stagger-2", "stagger-3"}
  {
    classes := [];
    var index := 0;
    while index < count
      invariant index <= count
      invariant |classes| == index
      invariant forall i | 0 <= i < index :: classes[i] == ["slide-up", StaggerClass(StaggerNumber(kind, i))]
    {
      classes := classes + [["slide-up", StaggerClass(StaggerNumber(kind, index))]];
      index := index + 1;
    }
    if !kind.GalleryItem? {
      forall i, j | 0 <= i < j < count
        ensures classes[i][1] != classes[j][1]
      {
        CountedClassesDistinct(kind, i, j);
      }
    } else {
      forall i | 0 <= i < count
        ensures classes[i][1] in {"stagger-1", "stagger-2", "stagger-3"}
      {
        GalleryClassesAreThree(i);
      }
    }
  }
}

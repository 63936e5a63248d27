/** The contract of scikit-learn's `LabelEncoder().fit_transform(values)` on
    str values: the classes are the distinct values sorted (Python compares
    str by code point), and each value is replaced by its position among them. */
module LabelEncoding {
  import opened Text

  /** The distinct values seen. */
  function Classes(values: seq<string>): set<string> {
    set v | v in values
  }

  /** How many classes sort strictly before `v`. */
  function Rank(classes: set<string>, v: string): nat {
    |set u | u in classes && Less(u, v)|
  }

  lemma {:induction false} SubsetCard<T>(a: set<T>, b: set<T>)
    requires a <= b
    ensures |a| <= |b|
    ensures a < b ==> |a| < |b|
  {
    if a != {} {
      var x :| x in a;
      SubsetCard(a - {x}, b - {x});
    } else if b != {} {
      var y :| y in b;
      assert |b - {y}| + 1 == |b|;
    }
  }

  /** A class that sorts before another gets a smaller code. */
  lemma RankMonotone(classes: set<string>, v: string, w: string)
    requires v in classes && Less(v, w)
    ensures Rank(classes, v) < Rank(classes, w)
  {
    var below := set u | u in classes && Less(u, v);
    var belowW := set u | u in classes && Less(u, w);
    forall u | u in below ensures u in belowW {
      LessTransitive(u, v, w);
    }
    LessIrreflexive(v);
    assert v in belowW && v !in below;
    SubsetCard(below, belowW);
  }

  lemma RankBound(classes: set<string>, v: string)
    requires v in classes
    ensures Rank(classes, v) < |classes|
  {
    var below := set u | u in classes && Less(u, v);
    LessIrreflexive(v);
    assert v !in below && below <= classes;
    SubsetCard(below, classes);
  }

  /** `LabelEncoder().fit_transform(values)`. */
  function Encode(values: seq<string>): (codes: seq<nat>)
    ensures |codes| == |values|
    ensures forall i :: 0 <= i < |values| ==> codes[i] < |Classes(values)|
    ensures forall i, j :: 0 <= i < |values| && 0 <= j < |values| ==>
              (codes[i] == codes[j] <==> values[i] == values[j])
    ensures forall i, j :: 0 <= i < |values| && 0 <= j < |values| && Less(values[i], values[j]) ==>
              codes[i] < codes[j]
  {
    var classes := Classes(values);
    var codes := seq(|values|, i requires 0 <= i < |values| => Rank(classes, values[i]));
    forall i | 0 <= i < |values| ensures codes[i] < |classes| {
      RankBound(classes, values[i]);
    }
    forall i, j | 0 <= i < |values| && 0 <= j < |values| && values[i] != values[j]
      ensures codes[i] != codes[j]
    {
      LessTotal(values[i], values[j]);
      if Less(values[i], values[j]) {
        RankMonotone(classes, values[i], values[j]);
      } else {
        RankMonotone(classes, values[j], values[i]);
      }
    }
    forall i, j | 0 <= i < |values| && 0 <= j < |values| && Less(values[i], values[j])
      ensures codes[i] < codes[j]
    {
      RankMonotone(classes, values[i], values[j]);
    }
    codes
  }

  /** Every code in range is used: the codes are dense. */
  lemma EncodeDense(values: seq<string>, c: nat)
    requires c < |Classes(values)|
    ensures exists i :: 0 <= i < |values| && Encode(values)[i] == c
  {
    var classes := Classes(values);
    var n := |classes|;
    var image := set v | v in classes :: Rank(classes, v);
    var range := CodeRange(n);
    forall v | v in classes ensures Rank(classes, v) < n {
      RankBound(classes, v);
    }
    ImageCard(classes, classes);
    if c !in image {
      assert image <= range - {c};
      SubsetCard(image, range - {c});
      assert false;
    }
    var v :| v in classes && Rank(classes, v) == c;
    var i :| 0 <= i < |values| && values[i] == v;
    assert Encode(values)[i] == c;
  }

  /** Distinct classes have distinct ranks, so the ranks of a set of classes are as many as the classes. */
  lemma {:induction false} ImageCard(classes: set<string>, a: set<string>)
    requires a <= classes
    ensures |set v | v in a :: Rank(classes, v)| == |a|
  {
    if a != {} {
      var x :| x in a;
      ImageCard(classes, a - {x});
      var rest := set v | v in a - {x} :: Rank(classes, v);
      forall v | v in a - {x} ensures Rank(classes, v) != Rank(classes, x) {
        LessTotal(v, x);
        if Less(v, x) { RankMonotone(classes, v, x); } else { RankMonotone(classes, x, v); }
      }
      assert (set v | v in a :: Rank(classes, v)) == rest + {Rank(classes, x)};
    } else {
      assert (set v | v in a :: Rank(classes, v)) == {};
    }
  }

  /** The codes 0 .. n - 1. */
  function CodeRange(n: nat): (r: set<nat>)
    ensures forall k: nat :: k in r <==> k < n
    ensures |r| == n
  {
    if n == 0 then {} else CodeRange(n - 1) + {n - 1}
  }
}

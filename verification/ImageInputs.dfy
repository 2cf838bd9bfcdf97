/** Images among the prompt. */
module ImageInputs {
  /*
   Images occupy runs of prompt positions: the token there is only a placeholder, and the row that
   enters the model is the image's.  Reuse of a prefix is bounded by the first image that differs.
  */

  type Half(==, !new)   // fp16 bits

  const INT_MAX := 0x7fff_ffff

  datatype Image = Image(start: int, rows: int, hidden: int, values: seq<Half>)

  predicate WellFormed(image: Image, promptLen: nat, hidden: nat) {
    && 0 <= image.start && 0 < image.rows && image.hidden == hidden
    && image.start + image.rows <= promptLen
    && |image.values| == image.rows * image.hidden
  }

  predicate AllWellFormed(images: seq<Image>, promptLen: nat, hidden: nat) {
    forall i :: 0 <= i < |images| ==> WellFormed(images[i], promptLen, hidden)
  }

  predicate Covers(image: Image, p: int) {
    image.start <= p < image.start + image.rows
  }

  lemma {:induction false} RowFits(n: nat, r: nat, h: nat)
    requires r < n
    ensures 0 <= r * h <= (r + 1) * h <= n * h
  {
    if r + 1 < n {
      RowFits(n - 1, r, h);
      assert n * h == (n - 1) * h + h;
    } else {
      assert (r + 1) * h == r * h + h;
    }
  }

  function ImageRow(image: Image, p: int): seq<Half>
    requires Covers(image, p) && 0 <= image.hidden && |image.values| == image.rows * image.hidden
  {
    var r := p - image.start;
    RowFits(image.rows, r, image.hidden);
    image.values[r * image.hidden..(r + 1) * image.hidden]
  }

  /** Rows lie one after another: channel `c` of the row at position `p`. */
  lemma {:induction false} ChannelAt(image: Image, p: int, c: nat)
    requires Covers(image, p) && |image.values| == image.rows * image.hidden && c < image.hidden
    ensures |ImageRow(image, p)| == image.hidden
    ensures 0 <= (p - image.start) * image.hidden + c < |image.values|
    ensures ImageRow(image, p)[c] == image.values[(p - image.start) * image.hidden + c]
  {
    var r := p - image.start;
    RowFits(image.rows, r, image.hidden);
    assert (r + 1) * image.hidden == r * image.hidden + image.hidden;
  }

  /** A well-formed image covers prompt positions only, at least one, and has a row of the model's width for each. */
  lemma {:induction false} WellFormedIff(image: Image, promptLen: nat, hidden: nat)
    ensures WellFormed(image, promptLen, hidden) <==>
              && (exists p: int :: Covers(image, p)) && (forall p: int :: Covers(image, p) ==> 0 <= p < promptLen)
              && image.hidden == hidden && |image.values| == image.rows * hidden
  {
    if image.rows > 0 {
      assert Covers(image, image.start) && Covers(image, image.start + image.rows - 1);
    }
  }

  // The row that ends up in position `p`: a later image overwrites an earlier one.
  datatype Injected = Untouched | Replaced(row: seq<Half>)

  predicate Storable(images: seq<Image>) {
    forall i :: 0 <= i < |images| ==> 0 <= images[i].hidden && |images[i].values| == images[i].rows * images[i].hidden
  }

  function RowAt(images: seq<Image>, p: int): Injected
    requires Storable(images)
  {
    if images == [] then Untouched
    else if Covers(images[|images| - 1], p) then Replaced(ImageRow(images[|images| - 1], p))
    else RowAt(images[..|images| - 1], p)
  }

  // No two images disagree about a position; pairwise disjoint images satisfy it.
  ghost predicate Unambiguous(images: seq<Image>)
    requires Storable(images)
  {
    forall i, j, p: int :: 0 <= i < |images| && 0 <= j < |images| && Covers(images[i], p) && Covers(images[j], p) ==>
      ImageRow(images[i], p) == ImageRow(images[j], p)
  }

  predicate PairwiseDisjoint(images: seq<Image>) {
    forall i, j :: 0 <= i < j < |images| ==>
      images[i].start + images[i].rows <= images[j].start || images[j].start + images[j].rows <= images[i].start
  }

  lemma {:induction false} DisjointIsUnambiguous(images: seq<Image>)
    requires Storable(images) && PairwiseDisjoint(images)
    ensures Unambiguous(images)
  {
  }

  /** The injected row is the row of the last image that covers the position. */
  lemma {:induction false} RowAtIsLast(images: seq<Image>, p: int) returns (last: int)
    requires Storable(images)
    ensures last == -1 || (0 <= last < |images| && Covers(images[last], p))
    ensures forall j :: last < j < |images| ==> !Covers(images[j], p)
    ensures RowAt(images, p) == if last == -1 then Untouched else Replaced(ImageRow(images[last], p))
  {
    if images == [] {
      last := -1;
    } else if Covers(images[|images| - 1], p) {
      last := |images| - 1;
    } else {
      last := RowAtIsLast(images[..|images| - 1], p);
    }
  }

  ghost predicate Changed(image: Image, a: seq<Image>, b: seq<Image>) {
    (image in a && image !in b) || (image in b && image !in a)
  }

  // The least start of an image of `a` that is not one of `b`; `most` if that is less, or there is none.
  function LeastStart(a: seq<Image>, b: seq<Image>, most: int): (limit: int)
    ensures limit <= most
    ensures forall image :: image in a && image !in b ==> limit <= image.start
    ensures limit == most || exists image :: image in a && image !in b && image.start == limit
  {
    if a == [] then most
    else
      var limit, image := LeastStart(a[..|a| - 1], b, most), a[|a| - 1];
      assert a == a[..|a| - 1] + [image];
      if image !in b && image.start < limit then image.start else limit
  }

  /** The least start of an image that only one of the two requests has. */
  function PrefixLimit(previous: seq<Image>, current: seq<Image>): (limit: int)
    ensures Bounded(limit, previous, current) && limit <= INT_MAX
    ensures limit == INT_MAX || exists image :: Changed(image, previous, current) && image.start == limit
  {
    LeastStart(current, previous, LeastStart(previous, current, INT_MAX))
  }

  lemma {:induction false} LeastOfNone(b: seq<Image>, most: int)
    ensures LeastStart([], b, most) == most
  {
  }

  lemma {:induction false} LeastOfOne(a: seq<Image>, image: Image, b: seq<Image>, most: int)
    ensures var limit := LeastStart(a, b, most);
      LeastStart(a + [image], b, most) == if image !in b && image.start < limit then image.start else limit
  {
    assert (a + [image])[..|a|] == a;
  }

  lemma {:induction false} NothingChanged(images: seq<Image>)
    ensures PrefixLimit(images, images) == INT_MAX
  {
  }

  method ImagePrefixLimit(previous: seq<Image>, current: seq<Image>) returns (limit: int)
    ensures limit == PrefixLimit(previous, current)
  {
    limit := Scan(previous, current, INT_MAX);
    limit := Scan(current, previous, limit);
  }

  method Scan(a: seq<Image>, b: seq<Image>, most: int) returns (limit: int)
    ensures limit == LeastStart(a, b, most)
  {
    hide LeastStart;
    limit := most;
    assert a[..0] == [];
    LeastOfNone(b, most);
    for i := 0 to |a|
      invariant limit == LeastStart(a[..i], b, most)
    {
      var match_ := false;
      for j := 0 to |b|
        invariant match_ <==> a[i] in b[..j]
      {
        var x, y := a[i], b[j];
        if x.start == y.start && x.rows == y.rows && x.hidden == y.hidden && x.values == y.values {
          match_ := true;
        }
      }
      assert b[..|b|] == b;
      assert a[..i + 1] == a[..i] + [a[i]];
      LeastOfOne(a[..i], a[i], b, most);
      if !match_ && a[i].start < limit {
        limit := a[i].start;
      }
    }
    assert a[..|a|] == a;
  }

  // A position below every image that only one of the two requests has.
  ghost predicate Bounded(limit: int, previous: seq<Image>, current: seq<Image>) {
    forall image :: Changed(image, previous, current) ==> limit <= image.start
  }

  /** One request without disagreeing images is enough for the limit to be right, and so is an unchanged list. */
  ghost predicate Compatible(previous: seq<Image>, current: seq<Image>)
    requires Storable(previous) && Storable(current)
  {
    previous == current || Unambiguous(previous) || Unambiguous(current)
  }

  /** Below the limit the two requests inject the same row, or none, at every position. */
  lemma {:induction false} ReuseIsSound(previous: seq<Image>, current: seq<Image>, limit: int, p: int)
    requires Storable(previous) && Storable(current) && Compatible(previous, current)
    requires Bounded(limit, previous, current) && p < limit
    ensures RowAt(previous, p) == RowAt(current, p)
  {
    var i := RowAtIsLast(previous, p);
    var j := RowAtIsLast(current, p);
    if i != -1 {
      assert !Changed(previous[i], previous, current);
      var k :| 0 <= k < |current| && current[k] == previous[i];
      assert Covers(current[k], p);
    }
    if j != -1 {
      assert !Changed(current[j], previous, current);
      var k :| 0 <= k < |previous| && previous[k] == current[j];
      assert Covers(previous[k], p);
    }
  }

  /** Two images over the same position, listed in another order, escape the limit. */
  lemma {:induction false} OverlapEscapesTheLimit(a: seq<Half>, b: seq<Half>, k: nat, promptLen: nat)
    requires |a| == |b| && a != b && k < promptLen
    ensures var x, y := Image(k, 1, |a|, a), Image(k, 1, |a|, b);
            && AllWellFormed([x, y], promptLen, |a|) && AllWellFormed([y, x], promptLen, |a|)
            && Storable([x, y]) && Storable([y, x]) && PrefixLimit([x, y], [y, x]) == INT_MAX
            && RowAt([x, y], k) == Replaced(b) && RowAt([y, x], k) == Replaced(a)
  {
    var x, y := Image(k, 1, |a|, a), Image(k, 1, |a|, b);
    forall image
      ensures image in [x, y] <==> image in [y, x]
    {
    }
    hide PrefixLimit;
    var limit := PrefixLimit([x, y], [y, x]);
    assert ImageRow(y, k) == b && ImageRow(x, k) == a;
  }

  ghost predicate SameImages(a: seq<Image>, b: seq<Image>) {
    multiset(a) == multiset(b)
  }

  lemma {:induction false} DisagreementShows(a: seq<Image>, i: nat, j: nat, p: int) returns (b: seq<Image>,
        c: seq<Image>)
    requires Storable(a) && i < |a| && j < |a| && Covers(a[i], p) && Covers(a[j], p)
    requires ImageRow(a[i], p) != ImageRow(a[j], p)
    ensures SameImages(a, b) && SameImages(a, c) && Storable(b) && Storable(c)
    ensures RowAt(b, p) != RowAt(c, p)
  {
    b, c := MoveToEnd(a, i), MoveToEnd(a, j);
    SameImagesSameMembers(a, b);
    SameImagesSameMembers(a, c);
    StorableByMembers(a, b);
    StorableByMembers(a, c);
  }

  lemma {:induction false} StorableByMembers(a: seq<Image>, b: seq<Image>)
    requires Storable(a) && forall image :: image in a <==> image in b
    ensures Storable(b)
  {
    forall i | 0 <= i < |b|
      ensures 0 <= b[i].hidden && |b[i].values| == b[i].rows * b[i].hidden
    {
      assert b[i] in b;
      var j :| 0 <= j < |a| && a[j] == b[i];
    }
  }

  /**
   So the exact demand on a request: the limit is right, whatever other images come before or after it, if and
   only if its own images are unambiguous.
  */
  lemma {:induction false} LimitIsRightIffUnambiguous(a: seq<Image>)
    requires Storable(a)
    ensures Unambiguous(a) <==>
            forall b, limit: int, p: int | Storable(b) && Bounded(limit, a, b) && p < limit ::
              RowAt(a, p) == RowAt(b, p)
  {
    if Unambiguous(a) {
      forall b, limit: int, p: int | Storable(b) && Bounded(limit, a, b) && p < limit
        ensures RowAt(a, p) == RowAt(b, p)
      {
        ReuseIsSound(a, b, limit, p);
      }
    } else {
      var i, j, p: int :| 0 <= i < |a| && 0 <= j < |a| && Covers(a[i], p) && Covers(a[j], p)
                          && ImageRow(a[i], p) != ImageRow(a[j], p);
      var b, c := DisagreementShows(a, i, j, p);
      SameImagesSameMembers(a, b);
      SameImagesSameMembers(a, c);
      assert Bounded(p + 1, a, b) && Bounded(p + 1, a, c);
      assert RowAt(b, p) != RowAt(a, p) || RowAt(c, p) != RowAt(a, p);
    }
  }

  lemma {:induction false} SameImagesSameMembers(a: seq<Image>, b: seq<Image>)
    requires SameImages(a, b)
    ensures forall image :: image in a <==> image in b
  {
    forall image
      ensures image in a <==> image in b
    {
      assert image in multiset(a) <==> image in multiset(b);
    }
  }

  function MoveToEnd(a: seq<Image>, k: nat): (b: seq<Image>)
    requires k < |a|
    ensures SameImages(a, b) && |b| == |a| && b[|b| - 1] == a[k]
  {
    assert a == a[..k] + [a[k]] + a[k + 1..];
    a[..k] + a[k + 1..] + [a[k]]
  }
}

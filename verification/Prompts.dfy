/** Token histories with image spans, and the longest history two prompts share. */
module Prompts {

  type Token = nat

  /** An image occupies the tokens `begin .. end`; its digest identifies the encoder input. */
  datatype Image = Image(begin: nat, end: nat, digest: nat)

  type Images = seq<Image>

  datatype Option<T> = None | Some(value: T)

  /** Nonempty, ordered and nonoverlapping spans. */
  predicate ValidImages(images: Images) {
    && (forall i :: 0 <= i < |images| ==> images[i].begin < images[i].end)
    && (forall i, j :: 0 <= i < j < |images| ==> images[i].end <= images[j].begin)
  }

  /** The span of `image` has `position` strictly inside. */
  predicate Splits(image: Image, position: nat) { image.begin < position < image.end }

  predicate Safe(images: Images, position: nat) {
    forall i :: 0 <= i < |images| ==> !Splits(images[i], position)
  }

  predicate SameStart(a: Images, b: Images, position: nat) {
    && (forall i :: 0 <= i < |a| && a[i].begin == position ==> a[i] in b)
    && (forall i :: 0 <= i < |b| && b[i].begin == position ==> b[i] in a)
  }

  /** The two histories agree on token `i` and on the image that starts there. */
  predicate SameAt(a: seq<Token>, ai: Images, b: seq<Token>, bi: Images, i: nat) {
    i < |a| && i < |b| && a[i] == b[i] && SameStart(ai, bi, i)
  }

  ghost predicate Same(a: seq<Token>, ai: Images, b: seq<Token>, bi: Images, n: nat) {
    forall i: nat :: i < n ==> SameAt(a, ai, b, bi, i)
  }

  /** A length both prompts share, at a token that splits no image of either. */
  ghost predicate Shared(a: seq<Token>, ai: Images, b: seq<Token>, bi: Images, n: nat) {
    n <= |a| && n <= |b| && Same(a, ai, b, bi, n) && Safe(ai, n) && Safe(bi, n)
  }

  ghost predicate LongestShared(a: seq<Token>, ai: Images, b: seq<Token>, bi: Images, n: nat) {
    Shared(a, ai, b, bi, n) && forall m: nat :: Shared(a, ai, b, bi, m) ==> m <= n
  }

  /** Rounds a position back to the start of the image around it. */
  method SafeBoundary(position: nat, images: Images) returns (r: nat)
    requires ValidImages(images)
    ensures r <= position && Safe(images, r)
    ensures forall p: nat :: r < p <= position ==> !Safe(images, p)
    ensures r == position || exists i :: 0 <= i < |images| && images[i].begin == r && Splits(images[i], position)
  {
    for i := 0 to |images|
      invariant forall k :: 0 <= k < i ==> !Splits(images[k], position)
    {
      if images[i].begin >= position {
        assert forall k :: i <= k < |images| ==> !Splits(images[k], position);
        return position;
      }
      if position < images[i].end {
        r := images[i].begin;
        forall k | 0 <= k < |images| ensures !Splits(images[k], r) {}
        forall p: nat | r < p <= position ensures !Safe(images, p) { assert Splits(images[i], p); }
        return r;
      }
    }
    return position;
  }

  /** Each image list up to `index` starts before `common`, and the rest does not. */
  predicate Passed(images: Images, index: nat, common: nat) {
    && index <= |images|
    && (forall k :: 0 <= k < index ==> images[k].begin < common)
    && (forall k :: index <= k < |images| ==> common <= images[k].begin)
  }

  lemma OnlyStart(images: Images, index: nat, common: nat)
    requires ValidImages(images) && Passed(images, index, common)
    ensures forall k :: 0 <= k < |images| && images[k].begin == common ==> k == index
    ensures index < |images| && images[index].begin == common ==> Passed(images, index + 1, common + 1)
    ensures !(index < |images| && images[index].begin == common) ==> Passed(images, index, common + 1)
  {
    forall k | index < k < |images| ensures common < images[k].begin {
      assert images[index].begin < images[index].end <= images[k].begin;
    }
  }

  /** Where the loop stops, no longer history is shared. */
  lemma StoppedAt(a: seq<Token>, ai: Images, b: seq<Token>, bi: Images, common: nat, n: nat)
    requires ValidImages(ai) && ValidImages(bi)
    requires common <= |a| && common <= |b| && Same(a, ai, b, bi, common) && !SameAt(a, ai, b, bi, common)
    requires n <= common && Safe(ai, n) && Safe(bi, n)
    requires forall p: nat :: n < p <= common ==> !Safe(ai, p) || !Safe(bi, p)
    ensures LongestShared(a, ai, b, bi, n)
  {
    forall m: nat | Shared(a, ai, b, bi, m) ensures m <= n {
      assert common < m ==> SameAt(a, ai, b, bi, common);
    }
  }

  /** The token count of the longest common history at a safe boundary. */
  method CommonTokens(a: seq<Token>, ai: Images, b: seq<Token>, bi: Images) returns (n: nat)
    requires ValidImages(ai) && ValidImages(bi)
    ensures LongestShared(a, ai, b, bi, n)
  {
    var limit := if |a| < |b| then |a| else |b|;
    var i, j, common := 0, 0, 0;
    while common < limit && a[common] == b[common]
      invariant 0 <= common <= limit && Same(a, ai, b, bi, common)
      invariant Passed(ai, i, common) && Passed(bi, j, common)
      decreases limit - common
    {
      var x := if i < |ai| && ai[i].begin == common then Some(ai[i]) else None;
      var y := if j < |bi| && bi[j].begin == common then Some(bi[j]) else None;
      OnlyStart(ai, i, common);
      OnlyStart(bi, j, common);
      if x.Some? != y.Some? || (x.Some? && (x.value.end != y.value.end || x.value.digest != y.value.digest)) {
        assert !SameStart(ai, bi, common) by { NotSame(ai, bi, i, j, common); }
        break;
      }
      assert SameStart(ai, bi, common);
      if x.Some? { i := i + 1; }
      if y.Some? { j := j + 1; }
      common := common + 1;
    }
    n := SafeBoundary(common, ai);
    ghost var first := n;
    n := SafeBoundary(n, bi);
    BoundaryAgrees(a, ai, b, bi, common, first, n);
    StoppedAt(a, ai, b, bi, common, n);
  }

  lemma NotSame(ai: Images, bi: Images, i: nat, j: nat, common: nat)
    requires ValidImages(ai) && ValidImages(bi) && Passed(ai, i, common) && Passed(bi, j, common)
    requires var x := i < |ai| && ai[i].begin == common; var y := j < |bi| && bi[j].begin == common;
      x != y || (x && ai[i] != bi[j])
    ensures !SameStart(ai, bi, common)
  {
    OnlyStart(ai, i, common);
    OnlyStart(bi, j, common);
  }

  /** Rounding back for one prompt never needs more rounding for the other. */
  lemma BoundaryAgrees(a: seq<Token>, ai: Images, b: seq<Token>, bi: Images, common: nat, first: nat, n: nat)
    requires ValidImages(ai) && ValidImages(bi) && Same(a, ai, b, bi, common) && n <= first <= common
    requires Safe(ai, first) && (forall p: nat :: first < p <= common ==> !Safe(ai, p))
    requires first == common || exists i :: 0 <= i < |ai| && ai[i].begin == first && Splits(ai[i], common)
    requires Safe(bi, n) && (forall p: nat :: n < p <= first ==> !Safe(bi, p))
    requires n == first || exists i :: 0 <= i < |bi| && bi[i].begin == n && Splits(bi[i], first)
    ensures n == first
  {
    forall k | 0 <= k < |bi| && bi[k].begin < common ensures bi[k] in ai {
      assert SameAt(a, ai, b, bi, bi[k].begin);
    }
  }
}

/** How the orders service stores an order's product list: a comma-separated
    string in one column (orders/orders.py:210-220). */
module OrdersCodec {
  import opened Text

  /** What `parse_product_ids_field` is given: the column's NULL, a string, or
      (from a request body) a JSON list of ids. */
  datatype IdsField = NoIds | IdsText(text: string) | IdsList(ids: seq<int>)

  /** The segments `x` that `if x.strip()` keeps. */
  function NonBlank(segs: seq<string>): (r: seq<string>)
    ensures |r| <= |segs|
    ensures forall i :: 0 <= i < |r| ==> Strip(r[i]) != "" && r[i] in segs
    ensures forall i :: 0 <= i < |segs| && Strip(segs[i]) != "" ==> segs[i] in r
  {
    if segs == [] then []
    else
      assert forall i :: 1 <= i < |segs| ==> segs[i] == segs[1..][i - 1];
      (if Strip(segs[0]) != "" then [segs[0]] else []) + NonBlank(segs[1..])
  }

  /** The filter keeps the order and every copy: it goes through a
      concatenation. */
  lemma {:induction false} NonBlankAppend(a: seq<string>, b: seq<string>)
    ensures NonBlank(a + b) == NonBlank(a) + NonBlank(b)
  {
    if a != [] {
      var x, t := a[0], a[1..];
      assert a == [x] + t;
      assert a + b == [x] + (t + b);
      NonBlankCons(x, t + b);
      NonBlankCons(x, t);
      NonBlankAppend(t, b);
    } else {
      assert a + b == b;
    }
  }

  /** One segment is kept in front exactly when it is not blank. */
  lemma NonBlankCons(x: string, t: seq<string>)
    ensures NonBlank([x] + t) == (if Strip(x) != "" then [x] else []) + NonBlank(t)
    ensures NonBlank([x]) == (if Strip(x) != "" then [x] else [])
  {
    assert ([x] + t)[1..] == t;
    assert [x][1..] == [];
  }

  /** `[int(x) for x in xs]`; None when some `int(x)` raises ValueError. */
  function ParseAll(xs: seq<string>): (r: Option<seq<int>>)
    ensures r.Some? <==> forall i :: 0 <= i < |xs| ==> PyInt(xs[i]).Some?
    ensures r.Some? ==> |r.value| == |xs| && forall i :: 0 <= i < |xs| ==> PyInt(xs[i]) == Some(r.value[i])
  {
    if xs == [] then Some([])
    else
      var head := PyInt(xs[0]);
      var tail := ParseAll(xs[1..]);
      if head.Some? && tail.Some? then Some([head.value] + tail.value) else None
  }

  /** `parse_product_ids_field(field)`: [] for None and "", a list as it is,
      otherwise one `int` per non-blank comma-separated segment, in order.
      None stands for the ValueError a non-numeric segment raises. */
  function ParseProductIdsField(field: IdsField): (r: Option<seq<int>>)
    ensures field == NoIds || field == IdsText("") ==> r == Some([])
    ensures field.IdsList? ==> r == Some(field.ids)
  {
    match field
    case NoIds => Some([])
    case IdsList(ids) => Some(ids)
    case IdsText(s) =>
      if s == "" then Some([])
      else
        var segs := NonBlank(Split(s, ','));
        ParseAll(segs)
  }

  /** A non-empty text reads as one `int` per non-blank segment, in order,
      and fails exactly when some segment is not an integer. */
  lemma ParseProductIdsText(s: string)
    requires s != ""
    ensures var r, segs := ParseProductIdsField(IdsText(s)), NonBlank(Split(s, ','));
      (r.Some? <==> forall i :: 0 <= i < |segs| ==> PyInt(segs[i]).Some?) &&
      (r.Some? ==> |r.value| == |segs| && forall i :: 0 <= i < |segs| ==> PyInt(segs[i]) == Some(r.value[i]))
  {
    var segs := NonBlank(Split(s, ','));
    assert ParseProductIdsField(IdsText(s)) == ParseAll(segs);
    ParseAllMeaning(segs);
  }

  /** ParseAll's contract as a fact of its own, so that the proof above uses
      it without unfolding ParseAll's body. */
  lemma ParseAllMeaning(xs: seq<string>)
    ensures var r := ParseAll(xs);
      (r.Some? <==> forall i :: 0 <= i < |xs| ==> PyInt(xs[i]).Some?) &&
      (r.Some? ==> |r.value| == |xs| && forall i :: 0 <= i < |xs| ==> PyInt(xs[i]) == Some(r.value[i]))
  {
  }

  /** `product_list_to_field(lst)`: `",".join(map(str, lst))`. */
  function ProductListToField(lst: seq<int>): string {
    Join(IntStrings(lst), ",")
  }

  // ---- Lemmas ----

  /** Printed integers are all kept by the blank filter. */
  lemma {:induction false} NonBlankOfIntStrings(lst: seq<int>)
    ensures NonBlank(IntStrings(lst)) == IntStrings(lst)
  {
    if lst != [] {
      IntToStringPlain(lst[0]);
      assert IntStrings(lst)[1..] == IntStrings(lst[1..]);
      NonBlankOfIntStrings(lst[1..]);
    }
  }

  /** Printed integers parse back. */
  lemma ParseAllOfIntStrings(lst: seq<int>)
    ensures ParseAll(IntStrings(lst)) == Some(lst)
  {
    var xs := IntStrings(lst);
    forall i | 0 <= i < |xs|
      ensures PyInt(xs[i]) == Some(lst[i])
    {
      PyIntOfIntToString(lst[i]);
    }
    assert ParseAll(xs).value == lst;
  }

  /** The stored column reads back as the list that was written, [] included. */
  lemma ProductIdsRoundTrip(lst: seq<int>)
    ensures ParseProductIdsField(IdsText(ProductListToField(lst))) == Some(lst)
  {
    if lst == [] {
      assert ProductListToField(lst) == "";
    } else {
      var strs := IntStrings(lst);
      forall i | 0 <= i < |strs| ensures ',' !in strs[i] {
        IntToStringPlain(lst[i]);
      }
      SplitJoin(strs, ',');
      IntToStringPlain(lst[0]);
      assert ProductListToField(lst) != "" by {
        if |strs| == 1 {
          assert ProductListToField(lst) == strs[0];
        } else {
          assert ProductListToField(lst) == strs[0] + "," + Join(strs[1..], ",");
        }
      }
      NonBlankOfIntStrings(lst);
      ParseAllOfIntStrings(lst);
    }
  }

  /** Writing is injective: two lists are stored alike only when they are equal. */
  lemma ProductListToFieldInjective(a: seq<int>, b: seq<int>)
    requires ProductListToField(a) == ProductListToField(b)
    ensures a == b
  {
    ProductIdsRoundTrip(a);
    ProductIdsRoundTrip(b);
  }
}

/** The order screen of the admin console (frontend/src/components/Orders.js):
    the order of the rows, the product picker and its running total, the
    form checks before a create or an update call, the parsing and printing
    of a stored product list, the drone dispatch and the buttons of a row. */
module OrdersConsole {
  import opened Text
  import opened TtlCache
  import opened OrdersCodec
  import opened OrdersFetch
  import opened OrdersService
  import opened ConsoleData

  // ---- The order of the rows ----

  /** The comparator given to `sort`: a "Pending" order before any other,
      otherwise the larger id first. Negative means `a` goes first. */
  function Compare(a: OrderRow, b: OrderRow): int {
    if a.status == "Pending" && b.status != "Pending" then -1
    else if a.status != "Pending" && b.status == "Pending" then 1
    else b.id - a.id
  }

  /** The rows in the comparator's order. */
  predicate SortedRows(s: seq<OrderRow>) {
    forall i, j :: 0 <= i < j < |s| ==> Compare(s[i], s[j]) <= 0
  }

  /** Insert one row before the first row it may precede. */
  function InsertRow(x: OrderRow, s: seq<OrderRow>): (r: seq<OrderRow>)
    ensures multiset(r) == multiset(s) + multiset{x}
  {
    if s == [] || Compare(x, s[0]) <= 0 then [x] + s
    else
      assert s == [s[0]] + s[1..];
      [s[0]] + InsertRow(x, s[1..])
  }

  /** `res.data.sort(comparator)`, as an insertion sort: for a comparator
      that is a total preorder, as this one is, every sort gives a sorted
      permutation. */
  function SortRows(s: seq<OrderRow>): seq<OrderRow> {
    if s == [] then [] else InsertRow(s[0], SortRows(s[1..]))
  }

  /** The comparator never puts both of two rows strictly first. */
  lemma CompareFlip(a: OrderRow, b: OrderRow)
    ensures Compare(a, b) > 0 ==> Compare(b, a) < 0
    ensures Compare(a, b) <= 0 || Compare(b, a) <= 0
  {
  }

  /** The comparator's order is transitive. */
  lemma CompareTransitive(a: OrderRow, b: OrderRow, c: OrderRow)
    requires Compare(a, b) <= 0 && Compare(b, c) <= 0
    ensures Compare(a, c) <= 0
  {
  }

  /** A row that may precede every row of a sorted list may head it. */
  lemma ConsSorted(y: OrderRow, t: seq<OrderRow>)
    requires SortedRows(t)
    requires forall k :: 0 <= k < |t| ==> Compare(y, t[k]) <= 0
    ensures SortedRows([y] + t)
  {
    var r := [y] + t;
    forall i, j | 0 <= i < j < |r| ensures Compare(r[i], r[j]) <= 0 {
      assert r[j] == t[j - 1];
      if i > 0 {
        assert r[i] == t[i - 1];
      }
    }
  }

  /** Every row of `InsertRow(x, s)` is `x` or a row of `s`. */
  lemma InsertRowMember(x: OrderRow, s: seq<OrderRow>, k: int)
    requires 0 <= k < |InsertRow(x, s)|
    ensures InsertRow(x, s)[k] == x || InsertRow(x, s)[k] in s
  {
    var t := InsertRow(x, s);
    assert t[k] in multiset(t);
  }

  lemma {:induction false} InsertRowSorted(x: OrderRow, s: seq<OrderRow>)
    requires SortedRows(s)
    ensures SortedRows(InsertRow(x, s))
  {
    if s != [] && Compare(x, s[0]) > 0 {
      CompareFlip(x, s[0]);
      var rest := s[1..];
      assert SortedRows(rest);
      InsertRowSorted(x, rest);
      var t := InsertRow(x, rest);
      forall k | 0 <= k < |t| ensures Compare(s[0], t[k]) <= 0 {
        InsertRowMember(x, rest, k);
        if t[k] != x {
          var m :| 0 <= m < |rest| && rest[m] == t[k];
          assert s[m + 1] == t[k];
        }
      }
      ConsSorted(s[0], t);
      assert [s[0]] + t == InsertRow(x, s);
    } else if s != [] {
      forall k | 0 <= k < |s| ensures Compare(x, s[k]) <= 0 {
        if k > 0 {
          CompareTransitive(x, s[0], s[k]);
        }
      }
      ConsSorted(x, s);
    }
  }

  lemma {:induction false} SortRowsSorted(s: seq<OrderRow>)
    ensures SortedRows(SortRows(s))
  {
    if s != [] {
      SortRowsSorted(s[1..]);
      InsertRowSorted(s[0], SortRows(s[1..]));
    }
  }

  lemma {:induction false} SortRowsPermutes(s: seq<OrderRow>)
    ensures multiset(SortRows(s)) == multiset(s)
  {
    if s != [] {
      SortRowsPermutes(s[1..]);
      assert s == [s[0]] + s[1..];
      assert multiset(SortRows(s)) == multiset(SortRows(s[1..])) + multiset{s[0]};
    }
  }

  /** The sort gives the same rows, in the comparator's order. */
  lemma SortRowsCorrect(s: seq<OrderRow>)
    ensures SortedRows(SortRows(s))
    ensures multiset(SortRows(s)) == multiset(s)
  {
    SortRowsSorted(s);
    SortRowsPermutes(s);
  }

  /** In a sorted list every "Pending" order comes before every other order,
      and within each of the two groups the ids go down. */
  lemma SortedRowsMeaning(s: seq<OrderRow>, i: int, j: int)
    requires SortedRows(s) && 0 <= i < j < |s|
    ensures s[j].status == "Pending" ==> s[i].status == "Pending"
    ensures (s[i].status == "Pending") == (s[j].status == "Pending") ==> s[i].id >= s[j].id
  {
    assert Compare(s[i], s[j]) <= 0;
  }

  // ---- The product picker ----

  /** `products.find(p => p.id === pid)`: the first product with that id. */
  function FindProduct(products: seq<Product>, pid: int): (r: Option<Product>)
    ensures r.Some? ==> r.value in products && r.value.id == pid
    ensures r.None? ==> forall p :: p in products ==> p.id != pid
  {
    if products == [] then None
    else if products[0].id == pid then Some(products[0])
    else FindProduct(products[1..], pid)
  }

  /** The product `FindProduct` returns is the first one with the id: none before it has it. */
  lemma {:induction false} FindProductFirst(products: seq<Product>, pid: int)
    ensures FindProduct(products, pid).Some? ==>
      exists k :: (0 <= k < |products| && products[k] == FindProduct(products, pid).value &&
                   forall j :: 0 <= j < k ==> products[j].id != pid)
  {
    if products != [] && products[0].id != pid && FindProduct(products[1..], pid).Some? {
      FindProductFirst(products[1..], pid);
      var k :| 0 <= k < |products[1..]| && products[1..][k] == FindProduct(products[1..], pid).value &&
        forall j :: 0 <= j < k ==> products[1..][j].id != pid;
      assert products[k + 1] == FindProduct(products, pid).value;
      forall j | 0 < j < k + 1
        ensures products[j].id != pid
      {
        assert products[j] == products[1..][j - 1];
      }
    } else if products != [] && products[0].id == pid {
      assert products[0] == FindProduct(products, pid).value;
    }
  }

  /** What one selected id adds to the total: the price of the product found, or 0. */
  function PriceIn(products: seq<Product>, pid: int): int {
    var p := FindProduct(products, pid);
    if p.Some? then p.value.price else 0
  }

  /** `calculateTotal(productIds)`: the reduce over the selected ids. */
  function CalculateTotal(products: seq<Product>, ids: seq<int>): int {
    if ids == [] then 0 else CalculateTotal(products, ids[..|ids| - 1]) + PriceIn(products, ids[|ids| - 1])
  }

  /** `ids.filter(id => id !== x)`. */
  function Without<T(==, !new)>(ids: seq<T>, x: T): (r: seq<T>)
    ensures x !in r
    ensures forall y :: y != x ==> (y in r <==> y in ids)
    ensures |r| <= |ids|
  {
    if ids == [] then []
    else (if ids[0] == x then [] else [ids[0]]) + Without(ids[1..], x)
  }

  /** The new list of `handleProductToggle`: a selected id is removed
      everywhere, an unselected one is appended at the end. */
  function Toggle<T(==, !new)>(ids: seq<T>, x: T): seq<T> {
    if x in ids then Without(ids, x) else ids + [x]
  }

  /** How many times `x` is selected. */
  function Count<T(==)>(ids: seq<T>, x: T): nat {
    if ids == [] then 0 else (if ids[0] == x then 1 else 0) + Count(ids[1..], x)
  }

  /** The form of the order screen: id and user id as typed or chosen
      (strings), the selected product ids and the shown total. */
  datatype OrderForm = OrderForm(id: string, userId: string, productIds: seq<int>, total: int)

  /** `handleProductToggle(productId)` on a form: the toggled list and its total. */
  function ToggleProduct(form: OrderForm, products: seq<Product>, x: int): OrderForm {
    var ids := Toggle(form.productIds, x);
    form.(productIds := ids, total := CalculateTotal(products, ids))
  }

  /** A toggle flips the membership of its id and of no other. */
  lemma ToggleFlips<T(!new)>(ids: seq<T>, x: T)
    ensures x in Toggle(ids, x) <==> x !in ids
    ensures forall y :: y != x ==> (y in Toggle(ids, x) <==> y in ids)
  {
  }

  /** Toggling an unselected id twice gives the list back. */
  lemma ToggleTwiceRestores<T(!new)>(ids: seq<T>, x: T)
    requires x !in ids
    ensures Toggle(Toggle(ids, x), x) == ids
  {
    WithoutAbsent(ids, x);
    WithoutAppend(ids, [x], x);
    assert Without([x], x) == [];
    assert ids + [] == ids;
  }

  lemma {:induction false} WithoutAbsent<T(!new)>(ids: seq<T>, x: T)
    requires x !in ids
    ensures Without(ids, x) == ids
  {
    if ids != [] {
      WithoutAbsent(ids[1..], x);
      assert ids == [ids[0]] + ids[1..];
    }
  }

  /** The filter keeps the order and every copy of the other ids: it goes
      through a concatenation, and keeps one id exactly when it is not `x`. */
  lemma {:induction false} WithoutAppend<T(!new)>(a: seq<T>, b: seq<T>, x: T)
    ensures Without(a + b, x) == Without(a, x) + Without(b, x)
    ensures |a| == 1 ==> Without(a, x) == (if a[0] == x then [] else a)
  {
    if a != [] {
      assert (a + b)[1..] == a[1..] + b;
      WithoutAppend(a[1..], b, x);
    } else {
      assert a + b == b;
    }
  }

  lemma {:induction false} CalculateTotalAppend(products: seq<Product>, a: seq<int>, b: seq<int>)
    ensures CalculateTotal(products, a + b) == CalculateTotal(products, a) + CalculateTotal(products, b)
    decreases |b|
  {
    if b == [] {
      assert a + b == a;
    } else {
      assert (a + b)[..|a + b| - 1] == a + b[..|b| - 1];
      CalculateTotalAppend(products, a, b[..|b| - 1]);
    }
  }

  lemma CalculateTotalSingle(products: seq<Product>, pid: int)
    ensures CalculateTotal(products, [pid]) == PriceIn(products, pid)
  {
    assert [pid][..0] == [];
  }

  /** The total of a list is the total without `x` plus the price of `x` for each time it is selected. */
  lemma {:induction false} CalculateTotalWithout(products: seq<Product>, ids: seq<int>, x: int)
    ensures CalculateTotal(products, ids) == CalculateTotal(products, Without(ids, x)) + Count(ids, x) * PriceIn(products, x)
    decreases |ids|
  {
    if ids != [] {
      var h, t := ids[0], ids[1..];
      CalculateTotalCons(products, ids);
      CalculateTotalWithout(products, t, x);
      var w := Without(t, x);
      var p := PriceIn(products, x);
      var c := Count(t, x);
      if h == x {
        assert Without(ids, x) == w;
        CopiesPrice(ids, x, p);
      } else {
        assert Without(ids, x) == [h] + w;
        assert Count(ids, x) == c;
        CalculateTotalCons(products, [h] + w);
        assert ([h] + w)[1..] == w;
      }
    }
  }

  /** A list that starts with `x` pays the price of `x` once more than its tail. */
  lemma CopiesPrice(ids: seq<int>, x: int, p: int)
    requires ids != [] && ids[0] == x
    ensures Count(ids, x) * p == Count(ids[1..], x) * p + p
  {
    var c := Count(ids[1..], x);
    assert Count(ids, x) == c + 1;
    assert (c + 1) * p == c * p + p;
  }

  /** The total of a non-empty list is the price of its first id plus the total of the rest. */
  lemma CalculateTotalCons(products: seq<Product>, ids: seq<int>)
    requires ids != []
    ensures CalculateTotal(products, ids) == PriceIn(products, ids[0]) + CalculateTotal(products, ids[1..])
  {
    assert ids == [ids[0]] + ids[1..];
    CalculateTotalAppend(products, [ids[0]], ids[1..]);
    CalculateTotalSingle(products, ids[0]);
  }

  /** The total a toggle shows: up by the product's price when it is
      selected, down by its price for every time it was selected when it is
      removed; ids with no product count 0. */
  lemma ToggleTotal(form: OrderForm, products: seq<Product>, x: int)
    ensures var f := ToggleProduct(form, products, x);
      f.total == CalculateTotal(products, form.productIds) +
        (if x in form.productIds then -(Count(form.productIds, x) * PriceIn(products, x)) else PriceIn(products, x))
  {
    var ids := form.productIds;
    if x in ids {
      CalculateTotalWithout(products, ids, x);
    } else {
      CalculateTotalAppend(products, ids, [x]);
      CalculateTotalSingle(products, x);
    }
  }

  /** Ids that match no product add nothing to the total. */
  lemma {:induction false} CalculateTotalOfUnknown(products: seq<Product>, ids: seq<int>)
    requires forall i :: 0 <= i < |ids| ==> FindProduct(products, ids[i]).None?
    ensures CalculateTotal(products, ids) == 0
  {
    if ids != [] {
      CalculateTotalOfUnknown(products, ids[..|ids| - 1]);
    }
  }

  // ---- The form checks ----

  /** The body `createOrder` sends. A `parseInt` that gives NaN is sent as
      null, here None; `id` is None also when it is not sent. */
  datatype CreatePayload = CreatePayload(userId: Option<int>, productIds: seq<int>, id: Option<int>)

  /** `createOrder`'s checks: a user is chosen, a product is selected, and an
      id typed in is not zero or below. */
  function CreateClick(form: OrderForm): ClickResult<CreatePayload> {
    if form.userId == "" then Alert("Please select a user!")
    else if |form.productIds| == 0 then Alert("Please select at least one product!")
    else if form.id != "" && Strip(form.id) != "" then
      var id := JsParseInt(form.id);
      // `NaN <= 0` is false: an id that is not a number is sent as null.
      if id.Some? && id.value <= 0 then Alert("ID must be positive!")
      else Call(CreatePayload(JsParseInt(form.userId), form.productIds, id))
    else Call(CreatePayload(JsParseInt(form.userId), form.productIds, None))
  }

  /** No call is made without a user, without a product, or with an id that is zero or below. */
  lemma CreateClickGuards(form: OrderForm)
    ensures CreateClick(form).Call? <==>
      form.userId != "" && |form.productIds| > 0 &&
      !(Strip(form.id) != "" && JsParseInt(form.id).Some? && JsParseInt(form.id).value <= 0)
    ensures CreateClick(form).Call? ==>
      (CreateClick(form).payload.productIds == form.productIds &&
       (CreateClick(form).payload.id.Some? ==> CreateClick(form).payload.id.value > 0))
  {
    if form.id == "" {
      assert Strip(form.id) == "";
    }
  }

  /** The edit form. Its product list may hold NaN, here None: `startEdit`
      keeps what `parseInt` could not read. */
  datatype EditForm = EditForm(id: FormValue, userId: FormValue, productIds: seq<Option<int>>, total: int)

  /** `calculateTotal` on the edit form's list: `parseInt(NaN)` finds no
      product, so a NaN entry adds 0. */
  function EditTotal(products: seq<Product>, ids: seq<Option<int>>): int {
    if ids == [] then 0
    else
      var last := ids[|ids| - 1];
      EditTotal(products, ids[..|ids| - 1]) + (if last.Some? then PriceIn(products, last.value) else 0)
  }

  /** `handleProductToggle(productId, true)`: the toggle on the edit form. */
  function ToggleEditProduct(form: EditForm, products: seq<Product>, x: int): EditForm {
    var ids := Toggle(form.productIds, Some(x));
    form.(productIds := ids, total := EditTotal(products, ids))
  }

  /** The numbers of a list with NaN entries, in order. */
  function Somes(xs: seq<Option<int>>): (r: seq<int>)
    ensures forall y :: y in r <==> Some(y) in xs
  {
    if xs == [] then []
    else
      var last := xs[|xs| - 1];
      assert forall y :: Some(y) in xs <==> Some(y) in xs[..|xs| - 1] || Some(y) == last;
      Somes(xs[..|xs| - 1]) + (if last.Some? then [last.value] else [])
  }

  /** The edit total is the total of the numeric entries alone. */
  lemma {:induction false} EditTotalIgnoresNaN(products: seq<Product>, ids: seq<Option<int>>)
    ensures EditTotal(products, ids) == CalculateTotal(products, Somes(ids))
    decreases |ids|
  {
    if ids != [] {
      var pre, last := ids[..|ids| - 1], ids[|ids| - 1];
      EditTotalIgnoresNaN(products, pre);
      var tail := if last.Some? then [last.value] else [];
      CalculateTotalAppend(products, Somes(pre), tail);
      if last.Some? {
        CalculateTotalSingle(products, last.value);
      }
    }
  }

  /** An edit toggle flips its id, keeps every NaN entry, and shows the total
      of the numeric entries of the new list. */
  lemma ToggleEditRules(form: EditForm, products: seq<Product>, x: int)
    ensures var f := ToggleEditProduct(form, products, x);
      (Some(x) in f.productIds <==> Some(x) !in form.productIds) &&
      (None in f.productIds <==> None in form.productIds) &&
      f.total == CalculateTotal(products, Somes(f.productIds))
  {
    ToggleFlips(form.productIds, Some(x));
    EditTotalIgnoresNaN(products, Toggle(form.productIds, Some(x)));
  }

  /** The body `saveEdit` sends. `parseInt` of a NaN entry is NaN, which the
      JSON body carries as null, here None. */
  datatype SavePayload = SavePayload(id: Option<int>, userId: Option<int>, productIds: seq<Option<int>>)

  /** `saveEdit`'s checks, in order: user, products, id given, id not zero or below. */
  function SaveClick(form: EditForm): ClickResult<SavePayload> {
    if !FilledIn(form.userId) then Alert("Please select a user!")
    else if |form.productIds| == 0 then Alert("Please select at least one product!")
    else if !FilledIn(form.id) then Alert("ID is required!")
    else if ParseValue(form.id).Some? && ParseValue(form.id).value <= 0 then Alert("ID must be positive!")
    else Call(SavePayload(ParseValue(form.id), ParseValue(form.userId), form.productIds))
  }

  /** A save call is made exactly when user, products and id are given and the id is not zero or below. */
  lemma SaveClickGuards(form: EditForm)
    ensures SaveClick(form).Call? <==>
      FilledIn(form.userId) && |form.productIds| > 0 && FilledIn(form.id) &&
      !(ParseValue(form.id).Some? && ParseValue(form.id).value <= 0)
    ensures SaveClick(form).Call? ==>
      var p := SaveClick(form).payload;
      p.productIds == form.productIds && p.id == ParseValue(form.id) && p.userId == ParseValue(form.userId) &&
      (p.id.Some? ==> p.id.value > 0)
  {
  }

  // ---- Reading and printing a stored product list ----

  /** `.filter(id => id)`: drop the empty segments. */
  function NonEmpty(segs: seq<string>): (r: seq<string>)
    ensures forall i :: 0 <= i < |r| ==> r[i] != "" && r[i] in segs
    ensures forall i :: 0 <= i < |segs| && segs[i] != "" ==> segs[i] in r
  {
    if segs == [] then []
    else (if segs[0] != "" then [segs[0]] else []) + NonEmpty(segs[1..])
  }

  /** The filter keeps the order and every copy: it goes through a
      concatenation. */
  lemma {:induction false} NonEmptyAppend(a: seq<string>, b: seq<string>)
    ensures NonEmpty(a + b) == NonEmpty(a) + NonEmpty(b)
  {
    if a != [] {
      var h := if a[0] != "" then [a[0]] else [];
      assert (a + b)[0] == a[0] && (a + b)[1..] == a[1..] + b;
      NonEmptyAppend(a[1..], b);
      calc {
        NonEmpty(a + b);
        h + NonEmpty(a[1..] + b);
        h + (NonEmpty(a[1..]) + NonEmpty(b));
        { assert h + (NonEmpty(a[1..]) + NonEmpty(b)) == (h + NonEmpty(a[1..])) + NonEmpty(b); }
        (h + NonEmpty(a[1..])) + NonEmpty(b);
      }
    } else {
      assert a + b == b;
    }
  }

  /** One segment is kept exactly when it is not empty. */
  lemma NonEmptyOne(x: string)
    ensures NonEmpty([x]) == (if x != "" then [x] else [])
  {
    assert [x][1..] == [];
  }

  /** `.map(id => parseInt(id))`, NaN as None. */
  function ParseInts(segs: seq<string>): (r: seq<Option<int>>)
    ensures |r| == |segs|
    ensures forall i :: 0 <= i < |segs| ==> r[i] == JsParseInt(segs[i])
  {
    if segs == [] then [] else [JsParseInt(segs[0])] + ParseInts(segs[1..])
  }

  /** The product ids `startEdit` reads from an order: null and "" give [],
      empty segments are dropped, the rest go through `parseInt`. */
  function StartEditIds(field: Option<string>): seq<Option<int>> {
    var s := if field.Some? then field.value else "";
    ParseInts(NonEmpty(Split(s, ',')))
  }

  /** The edit form `startEdit(order)` opens; NaN ids stay in its list. */
  function StartEdit(row: OrderRow): EditForm {
    EditForm(Num(row.id), Num(row.userId), StartEditIds(row.productIds), row.total)
  }

  function MapSome(xs: seq<int>): (r: seq<Option<int>>)
    ensures |r| == |xs| && forall i :: 0 <= i < |xs| ==> r[i] == Some(xs[i])
  {
    if xs == [] then [] else [Some(xs[0])] + MapSome(xs[1..])
  }

  lemma {:induction false} SomesOfMapSome(xs: seq<int>)
    ensures Somes(MapSome(xs)) == xs
  {
    if xs != [] {
      var n, m := |xs| - 1, MapSome(xs);
      assert m[..n] == MapSome(xs[..n]);
      SomesOfMapSome(xs[..n]);
      assert Somes(m) == Somes(m[..n]) + [xs[n]];
      assert xs == xs[..n] + [xs[n]];
    }
  }

  lemma {:induction false} NonEmptyOfIntStrings(lst: seq<int>)
    ensures NonEmpty(IntStrings(lst)) == IntStrings(lst)
  {
    if lst != [] {
      IntToStringPlain(lst[0]);
      assert IntStrings(lst)[1..] == IntStrings(lst[1..]);
      NonEmptyOfIntStrings(lst[1..]);
    }
  }

  lemma {:induction false} ParseIntsOfIntStrings(lst: seq<int>)
    ensures ParseInts(IntStrings(lst)) == MapSome(lst)
  {
    forall i | 0 <= i < |lst| ensures ParseInts(IntStrings(lst))[i] == MapSome(lst)[i] {
      JsParseIntOfIntToString(lst[i]);
    }
  }

  /** null and "" open an empty product list. */
  lemma StartEditEmpty()
    ensures StartEditIds(None) == [] && StartEditIds(Some("")) == []
  {
    assert Split("", ',') == [""];
  }

  /** A segment `parseInt` cannot read is kept: "x" opens as [NaN], and a
      save sends it back as [null]. */
  lemma StartEditKeepsNaN(row: OrderRow)
    requires row.productIds == Some("x") && row.userId != 0 && row.id > 0
    ensures StartEdit(row).productIds == [None]
    ensures SaveClick(StartEdit(row)) == Call(SavePayload(Some(row.id), Some(row.userId), [None]))
  {
    NaNSegmentKept();
    var f := EditForm(Num(row.id), Num(row.userId), [None], row.total);
    assert StartEdit(row) == f;
    SaveClickGuards(f);
  }

  /** A segment `parseInt` cannot read is kept as NaN. */
  lemma NaNSegmentKept()
    ensures StartEditIds(Some("x")) == [None]
  {
    var x := "x";
    assert Split(x, ',') == [x];
    assert NonEmpty([x]) == [x];
    assert !IsSpace(x[0]) && !IsDigit(x[0]);
    assert TrimStart(x) == x;
    assert DigitPrefix(x) == [];
    assert ParseInts([x]) == [None];
  }

  /** What the orders service stored for a list opens as that very list. */
  lemma StartEditReadsStoredList(lst: seq<int>)
    ensures StartEditIds(Some(ProductListToField(lst))) == MapSome(lst)
    ensures Somes(StartEditIds(Some(ProductListToField(lst)))) == lst
  {
    if lst == [] {
      StartEditEmpty();
    } else {
      var strs := IntStrings(lst);
      forall i | 0 <= i < |strs| ensures ',' !in strs[i] {
        IntToStringPlain(lst[i]);
      }
      SplitJoin(strs, ',');
      NonEmptyOfIntStrings(lst);
      ParseIntsOfIntStrings(lst);
    }
    SomesOfMapSome(lst);
  }

  /** The text shown for one segment: the first product with that id, or "ID:" and the segment. */
  function NameOf(products: seq<Product>, seg: string): string {
    var pid := JsParseInt(seg);
    var p := if pid.Some? then FindProduct(products, pid.value) else None;
    if p.Some? then p.value.name else "ID:" + seg
  }

  function Names(products: seq<Product>, segs: seq<string>): (r: seq<string>)
    ensures |r| == |segs|
    ensures forall i :: 0 <= i < |segs| ==> r[i] == NameOf(products, segs[i])
  {
    if segs == [] then [] else [NameOf(products, segs[0])] + Names(products, segs[1..])
  }

  /** `getProductNames(productIdsStr)`: "N/A" for null or "", else one name per segment, joined by ", ". */
  function GetProductNames(products: seq<Product>, field: Option<string>): string {
    if field.None? || field.value == "" then "N/A"
    else Join(Names(products, Split(field.value, ',')), ", ")
  }

  /** A stored non-empty list is not "" and splits back into its printed ids. */
  lemma StoredListSegments(lst: seq<int>)
    requires lst != []
    ensures ProductListToField(lst) != ""
    ensures Split(ProductListToField(lst), ',') == IntStrings(lst)
  {
    var strs := IntStrings(lst);
    forall i | 0 <= i < |strs| ensures ',' !in strs[i] {
      IntToStringPlain(lst[i]);
    }
    SplitJoin(strs, ',');
    IntToStringPlain(lst[0]);
    if |strs| == 1 {
      assert ProductListToField(lst) == strs[0];
    } else {
      assert ProductListToField(lst) == strs[0] + "," + Join(strs[1..], ",");
    }
  }

  /** For a stored list, the i-th shown name is that of the i-th product, or
      "ID:" and the id when no product has it. */
  lemma ProductNamesOfStoredList(products: seq<Product>, lst: seq<int>)
    requires lst != []
    ensures var segs := Split(ProductListToField(lst), ',');
      GetProductNames(products, Some(ProductListToField(lst))) == Join(Names(products, segs), ", ") &&
      |segs| == |lst| &&
      forall i :: 0 <= i < |lst| ==>
        Names(products, segs)[i] ==
          (if FindProduct(products, lst[i]).Some? then FindProduct(products, lst[i]).value.name
           else "ID:" + IntToString(lst[i]))
  {
    StoredListSegments(lst);
    forall i | 0 <= i < |lst|
      ensures NameOf(products, IntToString(lst[i])) ==
        (if FindProduct(products, lst[i]).Some? then FindProduct(products, lst[i]).value.name else "ID:" + IntToString(lst[i]))
    {
      JsParseIntOfIntToString(lst[i]);
    }
  }

  // ---- Dispatch and the row's buttons ----

  const Delivering: string := "Delivering"
  const Completed: string := "Completed"

  /** One status write `API.updateOrder(orderId, { status })` as the console
      sees it: whether the call succeeds, and the orders it leaves. `applied`
      is whether the request reaches the orders service, which then updates
      a known order; `answered` is whether the answer comes back to the
      console before the client's five-second timeout. A write can be
      applied and still fail in the console. */
  function StatusWrite(orders: map<int, Order>, orderId: int, status: string, applied: bool, answered: bool): (bool, map<int, Order>) {
    var after := if applied && orderId in orders then orders[orderId := orders[orderId].(status := status)] else orders;
    (applied && answered && orderId in orders, after)
  }

  /** The first half of `handleDispatchDrone(orderId)`: the write of
      "Delivering". The result says whether the ten-second timer that makes
      the second write is set; a failed call (a 404, or no answer in time) is
      caught and sets no timer, whether or not the service stored the write. */
  method DispatchStart(store: OrderStore, cache: Cache<Key, Cached>, orderId: int, applied: bool, answered: bool,
                       now: int, batch: Option<map<int, Doc>>, single: map<int, Doc>)
    returns (scheduled: bool)
    requires store.Valid()
    modifies store, cache
    ensures store.Valid() && store.lastId == old(store.lastId) && cache.entries == old(cache.entries)
    ensures (scheduled, store.orders) == StatusWrite(old(store.orders), orderId, Delivering, applied, answered)
  {
    if !applied {
      return false;
    }
    var reply := store.UpdateOrder(cache, orderId, UpdateRequest(None, None, Some(Delivering)), now, batch, single);
    scheduled := answered && !reply.Failed?;
  }

  /** The timer's half of `handleDispatchDrone(orderId)`: the write of
      "Completed" to whatever store the timer finds ten seconds later; the
      order may have been deleted or changed in the meantime. */
  method DispatchFinish(store: OrderStore, cache: Cache<Key, Cached>, orderId: int, applied: bool, answered: bool,
                        now: int, batch: Option<map<int, Doc>>, single: map<int, Doc>)
    returns (done: bool)
    requires store.Valid()
    modifies store, cache
    ensures store.Valid() && store.lastId == old(store.lastId) && cache.entries == old(cache.entries)
    ensures (done, store.orders) == StatusWrite(old(store.orders), orderId, Completed, applied, answered)
  {
    if !applied {
      return false;
    }
    var reply := store.UpdateOrder(cache, orderId, UpdateRequest(None, None, Some(Completed)), now, batch, single);
    done := answered && !reply.Failed?;
  }

  /** A status write changes the status of that one order and nothing else;
      the store changes exactly when the write reaches the service and the
      order is known, and the console sees success only if the answer also
      comes back. */
  lemma StatusWriteEffect(orders: map<int, Order>, orderId: int, status: string, applied: bool, answered: bool)
    ensures StatusWrite(orders, orderId, status, applied, answered).0 <==> applied && answered && orderId in orders
    ensures var after := StatusWrite(orders, orderId, status, applied, answered).1;
      after.Keys == orders.Keys &&
      (forall k :: k in orders && k != orderId ==> after[k] == orders[k]) &&
      (orderId in orders ==>
        after[orderId].status == (if applied then status else orders[orderId].status) &&
        after[orderId].(status := orders[orderId].status) == orders[orderId])
  {
  }

  /** The timer is set only after "Delivering" was stored. Without a timer the
      order is either unchanged or "Delivering" (a write stored but not
      answered). With one, and nothing else touching the order in the ten
      seconds, the order ends "Completed" if the second write reaches the
      service and stays "Delivering" if not. */
  lemma DispatchOutcome(orders: map<int, Order>, orderId: int, applied1: bool, answered1: bool,
                        applied2: bool, answered2: bool)
    ensures var (scheduled, mid) := StatusWrite(orders, orderId, Delivering, applied1, answered1);
      (!scheduled ==>
        mid == orders ||
        (orderId in orders && applied1 && !answered1 &&
         mid == orders[orderId := orders[orderId].(status := Delivering)])) &&
      (scheduled ==>
        mid[orderId].status == Delivering &&
        var (done, last) := StatusWrite(mid, orderId, Completed, applied2, answered2);
        done == (applied2 && answered2) &&
        last[orderId].status == (if applied2 then Completed else Delivering) &&
        last[orderId].(status := orders[orderId].status) == orders[orderId])
  {
  }

  /** A "Delivering" write the service stores but whose answer times out sets
      no timer, so no "Completed" write follows, and the row then offers no
      button: the order stays "Delivering". */
  lemma UnansweredDispatchStrandsOrder(orders: map<int, Order>, orderId: int, row: OrderRow, editingId: Option<int>)
    requires orderId in orders && editingId != Some(row.id)
    ensures var (scheduled, mid) := StatusWrite(orders, orderId, Delivering, true, false);
      !scheduled && mid[orderId].status == Delivering &&
      !HasButtons(RenderActions(row.(status := mid[orderId].status), editingId))
  {
  }

  /** When the order is deleted before the timer fires, the second write is
      answered with a 404 and the store stays as the deletion left it. */
  lemma DispatchFinishAfterDelete(later: map<int, Order>, orderId: int, applied: bool, answered: bool)
    requires orderId !in later
    ensures StatusWrite(later, orderId, Completed, applied, answered) == (false, later)
  {
  }

  /** What the Actions cell of a row shows. */
  datatype Actions = SaveCancel | DispatchButton | DeliveringLabel | CompletedLabel | EditDelete

  /** `renderActions(order)`, with the id of the row being edited, if any. */
  function RenderActions(row: OrderRow, editingId: Option<int>): Actions {
    if editingId == Some(row.id) then SaveCancel
    else if row.status == "Pending" then DispatchButton
    else if row.status == Delivering then DeliveringLabel
    else if row.status == Completed then CompletedLabel
    else EditDelete
  }

  /** Whether a cell has any button. */
  predicate HasButtons(a: Actions) {
    a == SaveCancel || a == DispatchButton || a == EditDelete
  }

  /** The dispatch button is offered exactly for a "Pending" row not being
      edited; Edit/Delete exactly for a row with another status than the
      three of the drone; "Delivering" and "Completed" rows have no button. */
  lemma RenderActionsRules(row: OrderRow, editingId: Option<int>)
    ensures editingId == Some(row.id) ==> RenderActions(row, editingId) == SaveCancel
    ensures RenderActions(row, editingId) == DispatchButton <==> editingId != Some(row.id) && row.status == "Pending"
    ensures RenderActions(row, editingId) == EditDelete <==>
      editingId != Some(row.id) && row.status != "Pending" && row.status != Delivering && row.status != Completed
    ensures editingId != Some(row.id) && (row.status == Delivering || row.status == Completed) ==> !HasButtons(RenderActions(row, editingId))
  {
  }

  /** After a dispatch the row of the order offers no button any more. */
  lemma DispatchedRowHasNoButtons(row: OrderRow, editingId: Option<int>)
    requires editingId != Some(row.id)
    ensures !HasButtons(RenderActions(row.(status := Completed), editingId))
    ensures !HasButtons(RenderActions(row.(status := Delivering), editingId))
  {
  }
}

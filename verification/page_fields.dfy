/** The flags of the `CustomPageResponse` annotation and `toCustomMap`, which
    turns a page into a map holding the keys whose flags are set. */
module PageFields {
  import opened PageKeyNames

  /** The thirteen annotation flags; each defaults to true. */
  datatype CustomPageResponse = CustomPageResponse(
    content: bool, totalElements: bool, totalPages: bool, size: bool, number: bool,
    numberOfElements: bool, sort: bool, empty: bool, hasContent: bool, first: bool,
    last: bool, hasPrevious: bool, hasNext: bool)

  const Defaults: CustomPageResponse :=
    CustomPageResponse(true, true, true, true, true, true, true, true, true, true, true, true, true)

  /** The page accessors the advice reads; their values come from the page
      implementation and are taken as given. */
  datatype Page = Page(
    content: seq<int>, totalElements: int, totalPages: int, size: int, number: int,
    numberOfElements: int, sort: string, isEmpty: bool, hasContent: bool, isFirst: bool,
    isLast: bool, hasPrevious: bool, hasNext: bool)

  datatype Value = Items(items: seq<int>) | Count(n: int) | Order(text: string) | Flag(b: bool)

  /** The thirteen page fields, each with its key, flag and value. */
  datatype Field =
    | ContentF | TotalElementsF | TotalPagesF | SizeF | NumberF | NumberOfElementsF | SortF
    | EmptyF | HasContentF | FirstF | LastF | HasPreviousF | HasNextF

  function KeyOf(f: Field): string {
    match f
    case ContentF => "content"
    case TotalElementsF => "total_elements"
    case TotalPagesF => "total_pages"
    case SizeF => "size"
    case NumberF => "number"
    case NumberOfElementsF => "number_of_elements"
    case SortF => "sort"
    case EmptyF => "empty"
    case HasContentF => "has_content"
    case FirstF => "first"
    case LastF => "last"
    case HasPreviousF => "has_previous"
    case HasNextF => "has_next"
  }

  function FlagOf(a: CustomPageResponse, f: Field): bool {
    match f
    case ContentF => a.content
    case TotalElementsF => a.totalElements
    case TotalPagesF => a.totalPages
    case SizeF => a.size
    case NumberF => a.number
    case NumberOfElementsF => a.numberOfElements
    case SortF => a.sort
    case EmptyF => a.empty
    case HasContentF => a.hasContent
    case FirstF => a.first
    case LastF => a.last
    case HasPreviousF => a.hasPrevious
    case HasNextF => a.hasNext
  }

  function ValueOf(p: Page, f: Field): Value {
    match f
    case ContentF => Items(p.content)
    case TotalElementsF => Count(p.totalElements)
    case TotalPagesF => Count(p.totalPages)
    case SizeF => Count(p.size)
    case NumberF => Count(p.number)
    case NumberOfElementsF => Count(p.numberOfElements)
    case SortF => Order(p.sort)
    case EmptyF => Flag(p.isEmpty)
    case HasContentF => Flag(p.hasContent)
    case FirstF => Flag(p.isFirst)
    case LastF => Flag(p.isLast)
    case HasPreviousF => Flag(p.hasPrevious)
    case HasNextF => Flag(p.hasNext)
  }

  /** The order of the conditional puts in the source. */
  const FieldOrder: seq<Field> := [
    ContentF, TotalElementsF, TotalPagesF, SizeF, NumberF, NumberOfElementsF, SortF,
    EmptyF, HasContentF, FirstF, LastF, HasPreviousF, HasNextF]

  /** The key names of all thirteen fields. */
  const AllKeys: set<string> := KeysOf(FieldOrder)

  /** The keys of the fields in `fs`. */
  function KeysOf(fs: seq<Field>): set<string> {
    set i | 0 <= i < |fs| :: KeyOf(fs[i])
  }

  /** Walks the fields in order, adding the key and value of each flagged one. */
  function PutFields(m: map<string, Value>, p: Page, a: CustomPageResponse, fs: seq<Field>): map<string, Value>
    decreases |fs|
  {
    if fs == [] then m
    else
      var f := fs[0];
      var m' := if FlagOf(a, f) then m[KeyOf(f) := ValueOf(p, f)] else m;
      PutFields(m', p, a, fs[1..])
  }

  /** `toCustomMap`: `buildMap` over the thirteen fields. */
  function ToCustomMap(p: Page, a: CustomPageResponse): map<string, Value> {
    PutFields(map[], p, a, FieldOrder)
  }

  /** Different fields have different keys. */
  lemma KeyOfInjective(f: Field, g: Field)
    ensures KeyOf(f) == KeyOf(g) ==> f == g
  {
  }

  lemma EveryFieldListed(f: Field)
    ensures f in FieldOrder
  {
  }

  /** Some field of `fs` with its flag set has key `k`. */
  predicate Flagged(a: CustomPageResponse, fs: seq<Field>, k: string) {
    exists i :: 0 <= i < |fs| && KeyOf(fs[i]) == k && FlagOf(a, fs[i])
  }

  lemma {:induction false} PutFieldsKeys(m: map<string, Value>, p: Page, a: CustomPageResponse, fs: seq<Field>)
    ensures forall k :: k in PutFields(m, p, a, fs) <==> k in m || Flagged(a, fs, k)
    decreases |fs|
  {
    if fs != [] {
      var f := fs[0];
      var m' := if FlagOf(a, f) then m[KeyOf(f) := ValueOf(p, f)] else m;
      PutFieldsKeys(m', p, a, fs[1..]);
      forall k
        ensures Flagged(a, fs, k) <==> (KeyOf(f) == k && FlagOf(a, f)) || Flagged(a, fs[1..], k)
      {
        if Flagged(a, fs, k) {
          var i :| 0 <= i < |fs| && KeyOf(fs[i]) == k && FlagOf(a, fs[i]);
          if i > 0 {
            assert fs[1..][i - 1] == fs[i];
          }
        }
        if Flagged(a, fs[1..], k) {
          var i :| 0 <= i < |fs[1..]| && KeyOf(fs[1..][i]) == k && FlagOf(a, fs[1..][i]);
          assert fs[i + 1] == fs[1..][i];
        }
      }
    }
  }

  /** A field's value, once in place, is never overwritten by another field. */
  lemma {:induction false} PutFieldsKeeps(m: map<string, Value>, p: Page, a: CustomPageResponse, fs: seq<Field>, f: Field)
    requires KeyOf(f) in m && m[KeyOf(f)] == ValueOf(p, f)
    ensures KeyOf(f) in PutFields(m, p, a, fs) && PutFields(m, p, a, fs)[KeyOf(f)] == ValueOf(p, f)
    decreases |fs|
  {
    if fs != [] {
      var g := fs[0];
      KeyOfInjective(f, g);
      var m' := if FlagOf(a, g) then m[KeyOf(g) := ValueOf(p, g)] else m;
      PutFieldsKeeps(m', p, a, fs[1..], f);
    }
  }

  lemma {:induction false} PutFieldsValues(m: map<string, Value>, p: Page, a: CustomPageResponse, fs: seq<Field>, f: Field)
    requires f in fs && FlagOf(a, f)
    ensures KeyOf(f) in PutFields(m, p, a, fs) && PutFields(m, p, a, fs)[KeyOf(f)] == ValueOf(p, f)
    decreases |fs|
  {
    var g := fs[0];
    var m' := if FlagOf(a, g) then m[KeyOf(g) := ValueOf(p, g)] else m;
    if g == f {
      PutFieldsKeeps(m', p, a, fs[1..], f);
    } else {
      assert f in fs[1..];
      PutFieldsValues(m', p, a, fs[1..], f);
    }
  }

  /** One field: its key is present exactly when its flag is set, with its value. */
  lemma FieldSelectedByFlag(p: Page, a: CustomPageResponse, f: Field)
    ensures KeyOf(f) in ToCustomMap(p, a) <==> FlagOf(a, f)
    ensures FlagOf(a, f) ==> ToCustomMap(p, a)[KeyOf(f)] == ValueOf(p, f)
  {
    PutFieldsKeys(map[], p, a, FieldOrder);
    if KeyOf(f) in ToCustomMap(p, a) {
      assert Flagged(a, FieldOrder, KeyOf(f));
      var i :| 0 <= i < |FieldOrder| && KeyOf(FieldOrder[i]) == KeyOf(f) && FlagOf(a, FieldOrder[i]);
      KeyOfInjective(FieldOrder[i], f);
    }
    if FlagOf(a, f) {
      EveryFieldListed(f);
      PutFieldsValues(map[], p, a, FieldOrder, f);
    }
  }

  /** The map holds the key of a field exactly when that field's flag is set,
      with that field's value, and holds nothing else. */
  lemma ToCustomMapSelectsByFlag(p: Page, a: CustomPageResponse)
    ensures forall f: Field :: KeyOf(f) in ToCustomMap(p, a) <==> FlagOf(a, f)
    ensures forall f: Field :: FlagOf(a, f) ==> ToCustomMap(p, a)[KeyOf(f)] == ValueOf(p, f)
    ensures forall k :: k in ToCustomMap(p, a) ==> exists f: Field :: KeyOf(f) == k && FlagOf(a, f)
  {
    forall f: Field {
      FieldSelectedByFlag(p, a, f);
    }
    forall k | k in ToCustomMap(p, a)
      ensures exists f: Field :: KeyOf(f) == k && FlagOf(a, f)
    {
      KeyComesFromFlaggedField(p, a, k);
    }
  }

  /** Every key of the map belongs to a field whose flag is set. */
  lemma KeyComesFromFlaggedField(p: Page, a: CustomPageResponse, k: string)
    ensures k in ToCustomMap(p, a) ==> exists f: Field :: KeyOf(f) == k && FlagOf(a, f)
  {
    PutFieldsKeys(map[], p, a, FieldOrder);
    if k in ToCustomMap(p, a) {
      FlaggedHasField(a, FieldOrder, k);
    }
  }

  lemma FlaggedHasField(a: CustomPageResponse, fs: seq<Field>, k: string)
    requires Flagged(a, fs, k)
    ensures exists f: Field :: KeyOf(f) == k && FlagOf(a, f)
  {
    var i :| 0 <= i < |fs| && KeyOf(fs[i]) == k && FlagOf(a, fs[i]);
    var f := fs[i];
    assert KeyOf(f) == k && FlagOf(a, f);
  }

  /** With every flag at its default the map has all thirteen keys. */
  lemma DefaultsGiveAllKeys(p: Page)
    ensures ToCustomMap(p, Defaults).Keys == KeyNames
    ensures |ToCustomMap(p, Defaults)| == 13
  {
    AllKeysSpelledOut();
    DefaultKeysAreAllKeys(p);
  }

  lemma DefaultFlagsSet(f: Field)
    ensures FlagOf(Defaults, f)
  {
  }

  lemma DefaultKeysAreAllKeys(p: Page)
    ensures ToCustomMap(p, Defaults).Keys == AllKeys
  {
    DefaultsPutEveryKey(p, FieldOrder);
  }

  /** Under the defaults every field of `fs` puts its key, and nothing else is put. */
  lemma DefaultsPutEveryKey(p: Page, fs: seq<Field>)
    ensures PutFields(map[], p, Defaults, fs).Keys == KeysOf(fs)
  {
    PutFieldsKeys(map[], p, Defaults, fs);
    forall k
      ensures k in PutFields(map[], p, Defaults, fs) <==> k in KeysOf(fs)
    {
      if k in KeysOf(fs) {
        var i :| 0 <= i < |fs| && KeyOf(fs[i]) == k;
        DefaultFlagsSet(fs[i]);
        assert Flagged(Defaults, fs, k);
      }
    }
  }

  lemma AllKeysWithinNames()
    ensures AllKeys <= KeyNames
  {
    forall i | 0 <= i < |FieldOrder|
      ensures KeyOf(FieldOrder[i]) in KeyNames
    {
    }
  }

  lemma NamesWithinAllKeys()
    ensures KeyNames <= AllKeys
  {
    assert FieldOrder[0] == ContentF && KeyOf(ContentF) == "content";
    assert FieldOrder[1] == TotalElementsF && KeyOf(TotalElementsF) == "total_elements";
    assert FieldOrder[2] == TotalPagesF && KeyOf(TotalPagesF) == "total_pages";
    assert FieldOrder[3] == SizeF && KeyOf(SizeF) == "size";
    assert FieldOrder[4] == NumberF && KeyOf(NumberF) == "number";
    assert FieldOrder[5] == NumberOfElementsF && KeyOf(NumberOfElementsF) == "number_of_elements";
    assert FieldOrder[6] == SortF && KeyOf(SortF) == "sort";
    assert FieldOrder[7] == EmptyF && KeyOf(EmptyF) == "empty";
    assert FieldOrder[8] == HasContentF && KeyOf(HasContentF) == "has_content";
    assert FieldOrder[9] == FirstF && KeyOf(FirstF) == "first";
    assert FieldOrder[10] == LastF && KeyOf(LastF) == "last";
    assert FieldOrder[11] == HasPreviousF && KeyOf(HasPreviousF) == "has_previous";
    assert FieldOrder[12] == HasNextF && KeyOf(HasNextF) == "has_next";
  }

  /** The key names are the thirteen documented ones, pairwise distinct. */
  lemma AllKeysSpelledOut()
    ensures AllKeys == KeyNames
    ensures |AllKeys| == 13
  {
    AllKeysWithinNames();
    NamesWithinAllKeys();
    KeyNamesCount();
  }
}

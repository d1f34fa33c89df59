/**
 * The merge step of `create_ad_groups_with_llm` (sem_analysis.py): each chunk's response is
 * indexed by `id`, each indexed item annotates a copy of the table row at that id, and the
 * annotated rows are bucketed by their `ad_group` value, in order of first appearance.
 */
module Classification {
  import opened Wrappers
  import opened Numbers
  import opened JsonExtraction
  import opened Keywords
  import Batching

  /** The record sent to the model for one table row: `{'id', 'keyword', 'search_volume', 'competition'}`. */
  datatype Record = Record(id: int, keyword: string, searchVolume: int, competition: string)

  /** The record of row `i` of the table; the table's index is its position. */
  function RecordOf(i: int, row: KeywordRow): Record {
    Record(i, row.keyword, row.searchVolume, row.competition)
  }

  /** Python truthiness of a parsed JSON value: everything but the six empty or zero values. */
  function Truthy(v: Json): (r: bool)
    ensures !r <==> (v == JNull || v == JBool(false) || v == JNum(0.0) || v == JStr("")
                     || v == JArr([]) || v == JObj(map[]))
  {
    match v
    case JNull => false
    case JBool(b) => b
    case JNum(n) => n != 0.0
    case JStr(s) => s != []
    case JArr(items) => items != []
    case JObj(fields) => fields != map[]
  }

  /** `int(v)` on a parsed JSON value: numbers truncate, booleans are 0 or 1, strings are parsed. */
  function IntOf(v: Json): (r: Result<int, Error>)
    ensures r.Err? ==> r.error == BadId
  {
    match v
    case JNum(n) => Ok(Truncate(n))
    case JBool(b) => Ok(if b then 1 else 0)
    case JStr(s) =>
      (match ParseInt(s)
       case Some(k) => Ok(k)
       case None => Err(BadId))
    case _ => Err(BadId)
  }

  /**
   * Which values `int()` accepts: numbers (truncated, so within 1 of the value), booleans
   * (1 for true, 0 for false) and strings holding an integer literal; null, lists and dicts
   * are refused.
   */
  lemma IntOfCases(v: Json)
    ensures v.JNull? || v.JArr? || v.JObj? ==> IntOf(v).Err?
    ensures v.JNum? ==> IntOf(v).Ok? && -1.0 < IntOf(v).value as real - v.n < 1.0
    ensures v.JBool? ==> IntOf(v).Ok? && (IntOf(v).value == 1 <==> v.b) && (IntOf(v).value == 0 <==> !v.b)
    ensures v.JStr? ==> (IntOf(v).Ok? <==> ParseInt(v.s).Some?)
    ensures v.JStr? && IntOf(v).Ok? ==> IntOf(v).value == ParseInt(v.s).value
  {
  }

  /**
   * What `for item in results` visits. Iterating an object visits its keys and iterating a
   * string its characters; those are strings, which the `isinstance(item, dict)` test drops,
   * so they are left out here. Numbers, booleans and null cannot be iterated.
   */
  function Elements(v: Json): Result<seq<Json>, Error> {
    match v
    case JArr(items) => Ok(items)
    case JObj(_) => Ok([])
    case JStr(_) => Ok([])
    case _ => Err(NotIterable)
  }

  /** A response item that the comprehension keeps: a dict with an `'id'` key. */
  predicate HasId(v: Json) {
    v.JObj? && "id" in v.fields
  }

  /** A kept item whose `id` converts to `k`. */
  predicate Keyed(v: Json, k: int) {
    HasId(v) && IntOf(v.fields["id"]) == Ok(k)
  }

  /** One entry of `result_by_id`. */
  datatype IdItem = IdItem(id: int, fields: map<string, Json>)

  function IdsOf(index: seq<IdItem>): (ids: seq<int>)
    ensures |ids| == |index| && forall i :: 0 <= i < |index| ==> ids[i] == index[i].id
  {
    seq(|index|, i requires 0 <= i < |index| => index[i].id)
  }

  predicate DistinctIds(index: seq<IdItem>) {
    forall i, j :: 0 <= i < j < |index| ==> index[i].id != index[j].id
  }

  /**
   * `d[e.id] = e.fields` on an insertion-ordered dict: an existing key keeps its position and
   * takes the new value; a new key goes last.
   */
  function Put(index: seq<IdItem>, e: IdItem): (r: seq<IdItem>)
    requires DistinctIds(index)
    ensures |r| == |index| + (if e.id in IdsOf(index) then 0 else 1)
    ensures forall i :: 0 <= i < |index| ==> r[i] == if index[i].id == e.id then e else index[i]
    ensures e.id !in IdsOf(index) ==> r[|index|] == e
    ensures DistinctIds(r)
  {
    if e.id in IdsOf(index) then
      seq(|index|, i requires 0 <= i < |index| => if index[i].id == e.id then e else index[i])
    else index + [e]
  }

  /**
   * `{int(item.get('id')): item for item in results if isinstance(item, dict) and 'id' in item}`:
   * items are visited in order, and the first failing `int` raises.
   */
  function IndexById(items: seq<Json>): (r: Result<seq<IdItem>, Error>)
    ensures r.Ok? ==> DistinctIds(r.value)
  {
    if items == [] then Ok([])
    else
      match IndexById(items[..|items| - 1])
      case Err(e) => Err(e)
      case Ok(index) =>
        var last := items[|items| - 1];
        if HasId(last) then
          match IntOf(last.fields["id"])
          case Err(e) => Err(e)
          case Ok(k) => Ok(Put(index, IdItem(k, last.fields)))
        else Ok(index)
  }

  /** `IndexById` fails exactly when some kept item's `id` does not convert, and then with `BadId`. */
  lemma {:induction false} IndexByIdFails(items: seq<Json>)
    ensures IndexById(items).Err? <==>
      exists p :: 0 <= p < |items| && HasId(items[p]) && IntOf(items[p].fields["id"]).Err?
    ensures IndexById(items).Err? ==> IndexById(items) == Err(BadId)
  {
    if items != [] {
      var init := items[..|items| - 1];
      IndexByIdFails(init);
      forall p | 0 <= p < |init| ensures items[p] == init[p] {}
    }
  }

  /** An id is in the index exactly when some kept item carries it. */
  lemma {:induction false} IndexByIdKeys(items: seq<Json>, k: int)
    requires IndexById(items).Ok?
    ensures k in IdsOf(IndexById(items).value) <==> exists p :: 0 <= p < |items| && Keyed(items[p], k)
  {
    if items != [] {
      var init := items[..|items| - 1];
      var last := items[|items| - 1];
      IndexByIdKeys(init, k);
      var before := IndexById(init).value;
      var index := IndexById(items).value;
      forall p | 0 <= p < |init| ensures items[p] == init[p] {}
      if HasId(last) && Keyed(last, k) {
        assert index == Put(before, IdItem(k, last.fields));
        var i := if k in IdsOf(before) then IndexOf(IdsOf(before), k) else |before|;
        assert IdsOf(index)[i] == k;
      } else {
        if k in IdsOf(index) {
          var i := IndexOf(IdsOf(index), k);
          if HasId(last) {
            assert index == Put(before, IdItem(IntOf(last.fields["id"]).value, last.fields));
          }
          assert i < |before| && before[i].id == k;
        }
        if k in IdsOf(before) {
          var i := IndexOf(IdsOf(before), k);
          if HasId(last) {
            assert index == Put(before, IdItem(IntOf(last.fields["id"]).value, last.fields));
          }
          assert IdsOf(index)[i] == k;
        }
      }
    }
  }

  /** A position of `k` in `s`. */
  function IndexOf<T(==)>(s: seq<T>, k: T): (i: nat)
    requires k in s
    ensures i < |s| && s[i] == k
  {
    if s[0] == k then 0 else 1 + IndexOf(s[1..], k)
  }

  /** An item of `Put(index, e)` with another id than `e` was already in `index`, at the same place. */
  lemma PutKeeps(index: seq<IdItem>, e: IdItem, i: nat)
    requires DistinctIds(index) && i < |Put(index, e)| && Put(index, e)[i].id != e.id
    ensures i < |index| && index[i] == Put(index, e)[i]
  {
  }

  /** `IndexById` one item further: the last item, when it is keyed, is put into the index so far. */
  lemma IndexByIdStep(items: seq<Json>)
    requires items != [] && IndexById(items).Ok?
    ensures var init, last := items[..|items| - 1], items[|items| - 1];
      IndexById(init).Ok?
      && (HasId(last) ==> IntOf(last.fields["id"]).Ok?)
      && (HasId(last) ==>
            IndexById(items).value == Put(IndexById(init).value, IdItem(IntOf(last.fields["id"]).value, last.fields)))
      && (!HasId(last) ==> IndexById(items).value == IndexById(init).value)
  {
  }

  /** Each index entry holds the fields of the last kept item carrying its id. */
  lemma {:induction false} IndexByIdLast(items: seq<Json>, i: nat)
    requires IndexById(items).Ok? && i < |IndexById(items).value|
    ensures var entry := IndexById(items).value[i];
      exists p :: 0 <= p < |items| && Keyed(items[p], entry.id) && items[p].fields == entry.fields
        && (forall q :: p < q < |items| ==> !Keyed(items[q], entry.id))
    decreases |items|, 1
  {
    var last := items[|items| - 1];
    var entry := IndexById(items).value[i];
    IndexByIdStep(items);
    if HasId(last) && IntOf(last.fields["id"]).value == entry.id {
      var p := |items| - 1;
      assert entry == IdItem(entry.id, last.fields);
      assert Keyed(items[p], entry.id) && items[p].fields == entry.fields;
    } else {
      IndexByIdEarlier(items, i);
    }
  }

  /** `IndexByIdLast` for an entry that the last item did not put. */
  lemma {:induction false} IndexByIdEarlier(items: seq<Json>, i: nat)
    requires IndexById(items).Ok? && i < |IndexById(items).value|
    requires var last := items[|items| - 1];
      !(HasId(last) && IntOf(last.fields["id"]) == Ok(IndexById(items).value[i].id))
    ensures var entry := IndexById(items).value[i];
      exists p :: 0 <= p < |items| && Keyed(items[p], entry.id) && items[p].fields == entry.fields
        && (forall q :: p < q < |items| ==> !Keyed(items[q], entry.id))
    decreases |items|, 0
  {
    var init := items[..|items| - 1];
    var entry := IndexById(items).value[i];
    IndexByIdStep(items);
    var before := IndexById(init).value;
    var last := items[|items| - 1];
    if HasId(last) {
      PutKeeps(before, IdItem(IntOf(last.fields["id"]).value, last.fields), i);
    }
    IndexByIdLast(init, i);
    var p :| 0 <= p < |init| && Keyed(init[p], entry.id) && init[p].fields == entry.fields
      && (forall q :: p < q < |init| ==> !Keyed(init[q], entry.id));
    assert items[p] == init[p];
    forall q | p < q < |items| ensures !Keyed(items[q], entry.id) {
      if q < |init| {
        assert items[q] == init[q];
      }
    }
  }



  /** A table row with the four `llm_*` columns set from a response item; a missing key is `None`. */
  datatype AnnotatedRow = AnnotatedRow(row: KeywordRow, adGroup: Json, intent: Json, matchType: Json, reasoning: Json)

  /** `item.get(key)` */
  function Get(fields: map<string, Json>, key: string): (v: Json)
    ensures key !in fields ==> v == JNull
    ensures key in fields ==> v == fields[key]
  {
    if key in fields then fields[key] else JNull
  }

  function Annotate(row: KeywordRow, fields: map<string, Json>): AnnotatedRow {
    AnnotatedRow(row, Get(fields, "ad_group"), Get(fields, "intent"), Get(fields, "match_type"), Get(fields, "reasoning"))
  }

  const Uncategorized: Json := JStr("Uncategorized")

  /**
   * `row_copy['llm_ad_group'] or 'Uncategorized'`, used as a dict key: a falsy value becomes
   * `'Uncategorized'`, and a non-empty list or object cannot be hashed.
   */
  function GroupKey(a: AnnotatedRow): (r: Result<Json, Error>)
    ensures !Truthy(a.adGroup) ==> r == Ok(Uncategorized)
    ensures Truthy(a.adGroup) && (a.adGroup.JArr? || a.adGroup.JObj?) ==> r == Err(Unhashable)
    ensures Truthy(a.adGroup) && !a.adGroup.JArr? && !a.adGroup.JObj? ==> r == Ok(a.adGroup)
    ensures r.Ok? ==> Truthy(r.value)
  {
    if !Truthy(a.adGroup) then Ok(Uncategorized)
    else if a.adGroup.JArr? || a.adGroup.JObj? then Err(Unhashable)
    else Ok(a.adGroup)
  }

  /** An annotated row with the key of the group it goes to. */
  datatype Entry = Entry(key: Json, row: AnnotatedRow)

  /** One group of the result: its key and its rows, in order of arrival. */
  datatype Group = Group(name: Json, rows: seq<AnnotatedRow>)

  function NamesOf(groups: seq<Group>): (names: seq<Json>)
    ensures |names| == |groups| && forall i :: 0 <= i < |groups| ==> names[i] == groups[i].name
  {
    seq(|groups|, i requires 0 <= i < |groups| => groups[i].name)
  }

  predicate DistinctNames(groups: seq<Group>) {
    forall i, j :: 0 <= i < j < |groups| ==> groups[i].name != groups[j].name
  }

  /**
   * `ad_groups[e.key].append(e.row)` on a `defaultdict(list)`: an existing group gets the row at
   * its end, an unseen key opens a new group after the others.
   */
  function AddRow(groups: seq<Group>, e: Entry): (r: seq<Group>)
    requires DistinctNames(groups)
    ensures |r| == |groups| + (if e.key in NamesOf(groups) then 0 else 1)
    ensures forall i :: 0 <= i < |groups| ==>
      r[i] == if groups[i].name == e.key then Group(e.key, groups[i].rows + [e.row]) else groups[i]
    ensures e.key !in NamesOf(groups) ==> r[|groups|] == Group(e.key, [e.row])
    ensures DistinctNames(r)
  {
    if e.key in NamesOf(groups) then
      seq(|groups|, i requires 0 <= i < |groups| =>
        if groups[i].name == e.key then Group(e.key, groups[i].rows + [e.row]) else groups[i])
    else groups + [Group(e.key, [e.row])]
  }

  /** The groups after adding the entries in order; no key appears twice, no group is empty. */
  function Grouped(es: seq<Entry>): (r: seq<Group>)
    ensures DistinctNames(r)
    ensures forall i :: 0 <= i < |r| ==> r[i].rows != []
  {
    if es == [] then [] else AddRow(Grouped(es[..|es| - 1]), es[|es| - 1])
  }

  /** The rows of the entries with key `k`, in order: the reference definition of a group. */
  function RowsWithKey(es: seq<Entry>, k: Json): seq<AnnotatedRow> {
    if es == [] then []
    else RowsWithKey(es[..|es| - 1], k) + (if es[|es| - 1].key == k then [es[|es| - 1].row] else [])
  }

  /** A key names a group exactly when some entry carries it. */
  lemma {:induction false} GroupedKeys(es: seq<Entry>, k: Json)
    ensures k in NamesOf(Grouped(es)) <==> exists p :: 0 <= p < |es| && es[p].key == k
  {
    if es != [] {
      var init := es[..|es| - 1];
      GroupedKeys(init, k);
      var before, after := Grouped(init), Grouped(es);
      forall p | 0 <= p < |init| ensures es[p] == init[p] {}
      if es[|es| - 1].key == k {
        var i := if k in NamesOf(before) then IndexOf(NamesOf(before), k) else |before|;
        assert NamesOf(after)[i] == k;
      } else {
        if k in NamesOf(after) {
          var i := IndexOf(NamesOf(after), k);
          assert i < |before| && before[i].name == k;
        }
        if k in NamesOf(before) {
          var i := IndexOf(NamesOf(before), k);
          assert NamesOf(after)[i] == k;
        }
      }
    }
  }

  /** Each group holds exactly the rows whose key is its name, in the order they arrived. */
  lemma {:induction false} GroupedRows(es: seq<Entry>, i: nat)
    requires i < |Grouped(es)|
    ensures Grouped(es)[i].rows == RowsWithKey(es, Grouped(es)[i].name)
  {
    var init, e := es[..|es| - 1], es[|es| - 1];
    var before, after := Grouped(init), Grouped(es);
    var k := after[i].name;
    if i < |before| {
      GroupedRows(init, i);
    } else {
      assert k == e.key && k !in NamesOf(before);
      GroupedKeys(init, k);
      NoKeyNoRows(init, k);
    }
  }

  lemma {:induction false} NoKeyNoRows(es: seq<Entry>, k: Json)
    requires forall p :: 0 <= p < |es| ==> es[p].key != k
    ensures RowsWithKey(es, k) == []
  {
    if es != [] {
      var init := es[..|es| - 1];
      forall p | 0 <= p < |init| ensures init[p].key != k {
        assert init[p] == es[p];
      }
      NoKeyNoRows(init, k);
    }
  }

  /** The item's id labels a table row, and the annotated row has a usable group key. */
  predicate Resolves(data: seq<KeywordRow>, item: IdItem) {
    0 <= item.id < |data| && GroupKey(Annotate(data[item.id], item.fields)).Ok?
  }

  /**
   * The entries of one chunk: the response items by id, each annotating the table row with
   * that label (`self.keywords_data.loc[item_id]` raises for an unknown label), each given
   * its group key.
   */
  function EntriesOf(data: seq<KeywordRow>, index: seq<IdItem>): Result<seq<Entry>, Error> {
    if index == [] then Ok([])
    else WithEntry(EntriesOf(data, index[..|index| - 1]), EntryOf(data, index[|index| - 1]))
  }

  /**
   * The entries succeed exactly when every item resolves; then there is one entry per item,
   * holding the annotated copy of the item's row and that copy's group key.
   */
  lemma {:induction false} EntriesOfSpec(data: seq<KeywordRow>, index: seq<IdItem>)
    ensures var r := EntriesOf(data, index);
      (r.Ok? <==> forall i :: 0 <= i < |index| ==> Resolves(data, index[i]))
      && (r.Ok? ==> |r.value| == |index| && forall i :: 0 <= i < |index| ==>
        0 <= index[i].id < |data| && r.value[i].row == Annotate(data[index[i].id], index[i].fields)
        && GroupKey(r.value[i].row) == Ok(r.value[i].key))
  {
    if index != [] {
      var m := |index| - 1;
      var init := index[..m];
      EntriesOfSpec(data, init);
      assert forall i :: 0 <= i < m ==> init[i] == index[i];
      var prev, next := EntriesOf(data, init), EntryOf(data, index[m]);
      assert EntriesOf(data, index) == WithEntry(prev, next);
      if prev.Ok? && next.Ok? {
        var es := prev.value + [next.value];
        assert forall i :: 0 <= i < m ==> es[i] == prev.value[i];
      }
    }
  }

  /** The entries so far followed by one more, the first error winning. */
  function WithEntry(prev: Result<seq<Entry>, Error>, next: Result<Entry, Error>): Result<seq<Entry>, Error> {
    match prev
    case Err(e) => Err(e)
    case Ok(es) =>
      match next
      case Err(e) => Err(e)
      case Ok(entry) => Ok(es + [entry])
  }

  /** The entry of one index item: the annotated copy of its row and that copy's group key. */
  function EntryOf(data: seq<KeywordRow>, item: IdItem): (r: Result<Entry, Error>)
    ensures r.Ok? <==> Resolves(data, item)
    ensures r.Ok? ==> r.value.row == Annotate(data[item.id], item.fields) && GroupKey(r.value.row) == Ok(r.value.key)
    ensures !(0 <= item.id < |data|) ==> r == Err(UnknownId(item.id))
  {
    if !(0 <= item.id < |data|) then Err(UnknownId(item.id))
    else
      var a := Annotate(data[item.id], item.fields);
      match GroupKey(a)
      case Err(e) => Err(e)
      case Ok(key) => Ok(Entry(key, a))
  }

  /** `EntriesOf` one item further. */
  lemma EntriesOfStep(data: seq<KeywordRow>, index: seq<IdItem>, j: nat)
    requires j < |index|
    ensures EntriesOf(data, index[..j + 1]) == WithEntry(EntriesOf(data, index[..j]), EntryOf(data, index[j]))
  {
    assert index[..j + 1][..j] == index[..j];
  }

  /** `Grouped` one entry further. */
  lemma GroupedSnoc(es: seq<Entry>, e: Entry)
    ensures Grouped(es + [e]) == AddRow(Grouped(es), e)
  {
    assert (es + [e])[..|es|] == es;
  }

  /** One chunk's array response, from the parsed JSON to its entries. */
  function ChunkEntries(data: seq<KeywordRow>, results: Json): (r: Result<seq<Entry>, Error>)
    ensures results.JNull? || results.JBool? || results.JNum? ==> r == Err(NotIterable)
    ensures results.JObj? || results.JStr? ==> r == Ok([])
  {
    match Elements(results)
    case Err(e) => Err(e)
    case Ok(items) =>
      match IndexById(items)
      case Err(e) => Err(e)
      case Ok(index) => EntriesOf(data, index)
  }

  /** Each entry of a chunk carries the group key of its annotated row. */
  lemma ChunkEntriesKeys(data: seq<KeywordRow>, results: Json)
    requires ChunkEntries(data, results).Ok?
    ensures KeysOfRows(ChunkEntries(data, results).value)
  {
    EntriesOfSpec(data, IndexById(Elements(results).value).value);
  }

  /**
   * The entries of all chunks in order, given what the array call returned for each chunk;
   * a failed call re-raises its error.
   */
  function ClassifyAll(data: seq<KeywordRow>, answers: seq<Result<Json, string>>): (r: Result<seq<Entry>, Error>)
    ensures r.Ok? <==> forall c :: 0 <= c < |answers| ==> ChunkSucceeds(data, answers[c])
  {
    if answers == [] then Ok([])
    else
      var init := answers[..|answers| - 1];
      assert forall c :: 0 <= c < |init| ==> init[c] == answers[c];
      WithChunk(data, ClassifyAll(data, init), answers[|answers| - 1])
  }

  /** The array call for a chunk returned a value, and its entries were filed. */
  predicate ChunkSucceeds(data: seq<KeywordRow>, answer: Result<Json, string>) {
    answer.Ok? && ChunkEntries(data, answer.value).Ok?
  }

  /** The entries of each chunk, when every chunk succeeds. */
  function ChunkValues(data: seq<KeywordRow>, answers: seq<Result<Json, string>>): (r: seq<seq<Entry>>)
    requires forall c :: 0 <= c < |answers| ==> answers[c].Ok? && ChunkEntries(data, answers[c].value).Ok?
    ensures |r| == |answers|
    ensures forall c :: 0 <= c < |answers| ==> r[c] == ChunkEntries(data, answers[c].value).value
  {
    seq(|answers|, c requires 0 <= c < |answers| => ChunkEntries(data, answers[c].value).value)
  }

  /** A successful run's entries are the chunks' entries concatenated, in chunk order. */
  lemma {:induction false} ClassifyAllFlatten(data: seq<KeywordRow>, answers: seq<Result<Json, string>>)
    requires ClassifyAll(data, answers).Ok?
    ensures ClassifyAll(data, answers).value == Batching.Flatten(ChunkValues(data, answers))
  {
    if answers != [] {
      var m := |answers| - 1;
      var init := answers[..m];
      assert forall c :: 0 <= c < m ==> init[c] == answers[c];
      ClassifyAllFlatten(data, init);
      var more := ChunkEntries(data, answers[m].value).value;
      Batching.FlattenExtended(ChunkValues(data, answers), ChunkValues(data, init), more);
    }
  }

  /** The entries so far followed by those of one more answer, the first error winning. */
  function WithChunk(data: seq<KeywordRow>, prev: Result<seq<Entry>, Error>, answer: Result<Json, string>): Result<seq<Entry>, Error> {
    match prev
    case Err(e) => Err(e)
    case Ok(es) =>
      match answer
      case Err(m) => Err(LlmFailed(m))
      case Ok(results) =>
        match ChunkEntries(data, results)
        case Err(e) => Err(e)
        case Ok(more) => Ok(es + more)
  }

  /** Once a prefix of the index fails, the whole index fails with the same error. */
  lemma {:induction false} EntriesOfPrefixErr(data: seq<KeywordRow>, index: seq<IdItem>, n: nat)
    requires n <= |index| && EntriesOf(data, index[..n]).Err?
    ensures EntriesOf(data, index) == EntriesOf(data, index[..n])
    decreases |index| - n
  {
    if n < |index| {
      var m := |index| - 1;
      assert index[..m][..n] == index[..n];
      EntriesOfPrefixErr(data, index[..m], n);
      assert EntriesOf(data, index) == WithEntry(EntriesOf(data, index[..m]), EntryOf(data, index[m]));
    } else {
      assert index[..n] == index;
    }
  }

  /** Once the answers for the first chunks fail, all of them fail with the same error. */
  lemma {:induction false} ClassifyAllPrefixErr(data: seq<KeywordRow>, answers: seq<Result<Json, string>>, n: nat)
    requires n <= |answers| && ClassifyAll(data, answers[..n]).Err?
    ensures ClassifyAll(data, answers) == ClassifyAll(data, answers[..n])
    decreases |answers| - n
  {
    if n < |answers| {
      var m := |answers| - 1;
      assert answers[..m][..n] == answers[..n];
      ClassifyAllPrefixErr(data, answers[..m], n);
      assert ClassifyAll(data, answers[..m]).Err?;
    } else {
      assert answers[..n] == answers;
    }
  }

  /** Entries whose keys were computed by `GroupKey`. */
  predicate KeysOfRows(es: seq<Entry>) {
    forall p :: 0 <= p < |es| ==> GroupKey(es[p].row) == Ok(es[p].key)
  }

  /** Every row of the group for `k` has `k` as its group key. */
  lemma {:induction false} RowsWithKeyHaveKey(es: seq<Entry>, k: Json)
    requires KeysOfRows(es)
    ensures forall i :: 0 <= i < |RowsWithKey(es, k)| ==> GroupKey(RowsWithKey(es, k)[i]) == Ok(k)
  {
    if es != [] {
      var init := es[..|es| - 1];
      assert KeysOfRows(init) by {
        forall p | 0 <= p < |init| ensures GroupKey(init[p].row) == Ok(init[p].key) {
          assert init[p] == es[p];
        }
      }
      RowsWithKeyHaveKey(init, k);
    }
  }

  /** The entries of a successful run carry the keys `GroupKey` gives their rows. */
  lemma {:induction false} ClassifyAllKeys(data: seq<KeywordRow>, answers: seq<Result<Json, string>>)
    requires ClassifyAll(data, answers).Ok?
    ensures KeysOfRows(ClassifyAll(data, answers).value)
  {
    if answers != [] {
      var init := answers[..|answers| - 1];
      ClassifyAllKeys(data, init);
      var results := answers[|answers| - 1].value;
      var items := Elements(results).value;
      var index := IndexById(items).value;
      var more := EntriesOf(data, index).value;
      EntriesOfSpec(data, index);
      assert ClassifyAll(data, answers).value == ClassifyAll(data, init).value + more;
    }
  }

  /** `ClassifyAll` one chunk further. */
  lemma ClassifyAllStep(data: seq<KeywordRow>, answers: seq<Result<Json, string>>, c: nat)
    requires c < |answers|
    ensures ClassifyAll(data, answers[..c + 1]) == WithChunk(data, ClassifyAll(data, answers[..c]), answers[c])
  {
    assert answers[..c + 1][..c] == answers[..c];
  }
}

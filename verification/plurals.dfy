/** A plurals phrase of an Android string resource: an ordered array from
    plural quantity names to strings. The quantity names are the CLDR plural
    categories; nothing here evaluates plural rules, the names are only keys. */
module Plurals {
  import opened Php
  import opened PhpArray
  import opened RawEscaper

  /** The quantity list `$list`, in its fixed order. */
  const Quantities: seq<string> := ["zero", "one", "two", "few", "many", "other"]

  /** The class tag written into every payload. */
  const PayloadClass: string := "Phrase_Android_Plurals"

  /** `getList()`: six quantity names, none twice. */
  function GetList(): (r: seq<string>)
    ensures |r| == 6 && Distinct(r)
    ensures r[0] == "zero" && r[5] == "other"
  {
    Quantities
  }

  /** The exceptions thrown for a key that the phrase does not hold. */
  datatype Error =
    | UnknownSubKey(subKey: string)      // 'Unknown sub-key ...' from setPhraseValue
    | UnknownQuantityId(subKey: string)  // 'Unknown quantity ID: ...' from addValue

  datatype Outcome = Pass | Fail(error: Error)

  /** The decoded JSON payload: the class tag and the `values` object. */
  datatype Payload = Payload(cls: string, values: Entries)

  /** `getPayloadFromValue($value)`, before JSON encoding. */
  function PayloadFromValue(value: Entries): (p: Payload)
    ensures p.cls == "Phrase_Android_Plurals" && p.values == value
  {
    Payload(PayloadClass, value)
  }

  // ---------------------------------------------------------------------------
  // fillWithDefault

  /** What `fillWithDefault(d)` does when its loop visits the quantities `qs`
      one at a time: an empty or missing quantity is assigned `d`. */
  function FillFrom(es: Entries, qs: seq<string>, d: string): (r: Entries)
    requires DistinctKeys(es)
    ensures DistinctKeys(r)
    decreases |qs|
  {
    if qs == [] then es
    else
      var prev := FillFrom(es, qs[..|qs| - 1], d);
      var q := qs[|qs| - 1];
      if EmptyAt(prev, q) then Assign(prev, q, d) else prev
  }

  /** The entries of `es`, each in its place, with `d` in those whose key is
      in `qs` and whose value is empty. */
  function Kept(es: Entries, qs: seq<string>, d: string): Entries {
    seq(|es|, i requires 0 <= i < |es| =>
          (es[i].0, if es[i].0 in qs && Empty(es[i].1) then d else es[i].1))
  }

  /** Each key of `ks`, in order, holding `d`. */
  function Defaults(ks: seq<string>, d: string): Entries {
    seq(|ks|, j requires 0 <= j < |ks| => (ks[j], d))
  }

  /** One more visited quantity is one more step of the loop. */
  lemma {:induction false} FillFromSnoc(es: Entries, qs: seq<string>, q: string, d: string)
    requires DistinctKeys(es)
    ensures var prev := FillFrom(es, qs, d);
      FillFrom(es, qs + [q], d) == if EmptyAt(prev, q) then Assign(prev, q, d) else prev
  {
    assert (qs + [q])[..|qs|] == qs;
  }

  /** The outcome of the fill described all at once: every entry keeps its key
      and position, an entry whose key is in `qs` and whose value is empty now
      holds `d`, and the quantities of `qs` that were absent follow at the end,
      each holding `d`, in the order of `qs`. */
  function FilledReference(es: Entries, qs: seq<string>, d: string): Entries {
    Kept(es, qs, d) + Defaults(Missing(Keys(es), qs), d)
  }

  lemma {:induction false} FillMatchesReference(es: Entries, qs: seq<string>, d: string)
    requires DistinctKeys(es)
    ensures FillFrom(es, qs, d) == FilledReference(es, qs, d)
  {
    if qs != [] {
      var init := qs[..|qs| - 1];
      var q := qs[|qs| - 1];
      assert qs == init + [q];
      FillMatchesReference(es, init, d);
      if q in Keys(es) {
        FillStepPresent(es, init, q, d);
      } else if q in init {
        FillStepRepeated(es, init, q, d);
      } else {
        FillStepNew(es, init, q, d);
      }
    }
  }

  /** The reference keeps the original keys and appends the missing ones,
      so its keys are distinct. */
  lemma {:induction false} ReferenceKeys(es: Entries, qs: seq<string>, d: string)
    requires DistinctKeys(es)
    ensures var ref := FilledReference(es, qs, d);
      Keys(ref) == Keys(es) + Missing(Keys(es), qs) && DistinctKeys(ref)
  {
    var ks := Keys(es);
    var m := Missing(ks, qs);
    var ref := FilledReference(es, qs, d);
    assert Keys(ref) == ks + m;
    forall i, j | 0 <= i < j < |ref| ensures Keys(ref)[i] != Keys(ref)[j] {
      if j < |es| {
        assert ks[i] != ks[j];
      } else if i >= |es| {
        assert m[i - |es|] != m[j - |es|];
      } else {
        assert ks[i] in ks;
        assert m[j - |es|] in m;
      }
    }
  }

  /** Visiting a quantity that is not an original key leaves the original
      entries alone. */
  lemma {:induction false} KeptIgnoresForeign(es: Entries, qs: seq<string>, q: string, d: string)
    requires q !in Keys(es)
    ensures Kept(es, qs + [q], d) == Kept(es, qs, d)
  {
    forall i | 0 <= i < |es| ensures (es[i].0 in qs + [q]) == (es[i].0 in qs) {
      assert Keys(es)[i] == es[i].0;
    }
  }

  /** The loop visits a quantity that is one of the original keys. */
  lemma {:induction false} FillStepPresent(es: Entries, init: seq<string>, q: string, d: string)
    requires DistinctKeys(es) && q in Keys(es)
    ensures var prev := FilledReference(es, init, d);
      DistinctKeys(prev) &&
      (if EmptyAt(prev, q) then Assign(prev, q, d) else prev) == FilledReference(es, init + [q], d)
  {
    var ks := Keys(es);
    var prev := FilledReference(es, init, d);
    var ref := FilledReference(es, init + [q], d);
    var m0 := Missing(ks, init);
    assert Missing(ks, init + [q]) == m0 by {
      assert (init + [q])[..|init|] == init;
    }
    var at := IndexOf(es, q);
    ReferenceKeys(es, init, d);
    IndexOfUnique(prev, q, at);
    var step := if EmptyAt(prev, q) then Assign(prev, q, d) else prev;
    assert |step| == |ref| && Keys(step) == Keys(prev);
    forall i | 0 <= i < |step| ensures step[i] == ref[i] {
      assert step[i].0 == Keys(step)[i] == Keys(prev)[i] == prev[i].0;
      if i == at {
        assert ref[i] == (q, if Empty(es[at].1) then d else es[at].1);
      } else if i < |es| {
        assert ks[i] != ks[at];
        assert step[i].1 == prev[i].1;
        assert es[i].0 in init + [q] <==> es[i].0 in init;
      } else {
        assert prev[i].0 == m0[i - |es|];
        assert m0[i - |es|] in m0;
        assert step[i].1 == prev[i].1;
      }
    }
  }

  /** The loop visits a quantity it has already appended: nothing changes. */
  lemma {:induction false} FillStepRepeated(es: Entries, init: seq<string>, q: string, d: string)
    requires DistinctKeys(es) && q !in Keys(es) && q in init
    ensures var prev := FilledReference(es, init, d);
      DistinctKeys(prev) &&
      (if EmptyAt(prev, q) then Assign(prev, q, d) else prev) == FilledReference(es, init + [q], d)
  {
    var ks := Keys(es);
    var prev := FilledReference(es, init, d);
    var m0 := Missing(ks, init);
    assert Missing(ks, init + [q]) == m0 by {
      assert (init + [q])[..|init|] == init;
    }
    KeptIgnoresForeign(es, init, q, d);
    assert FilledReference(es, init + [q], d) == prev;
    ReferenceKeys(es, init, d);
    var p :| 0 <= p < |m0| && m0[p] == q;
    assert prev[|es| + p] == (q, d);
    IndexOfUnique(prev, q, |es| + p);
    AssignSame(prev, q, d);
  }

  /** The loop visits a quantity that is not there yet: it is appended. */
  lemma {:induction false} FillStepNew(es: Entries, init: seq<string>, q: string, d: string)
    requires DistinctKeys(es) && q !in Keys(es) && q !in init
    ensures var prev := FilledReference(es, init, d);
      DistinctKeys(prev) &&
      (if EmptyAt(prev, q) then Assign(prev, q, d) else prev) == FilledReference(es, init + [q], d)
  {
    var ks := Keys(es);
    var prev := FilledReference(es, init, d);
    var m0 := Missing(ks, init);
    assert Missing(ks, init + [q]) == m0 + [q] by {
      assert (init + [q])[..|init|] == init;
    }
    assert Defaults(m0 + [q], d) == Defaults(m0, d) + [(q, d)];
    KeptIgnoresForeign(es, init, q, d);
    assert FilledReference(es, init + [q], d) == prev + [(q, d)];
    ReferenceKeys(es, init, d);
    assert q !in Keys(prev);
  }

  /** `fillWithDefault(d)` over the quantity list. */
  function FillWithDefaults(es: Entries, d: string): (r: Entries)
    requires DistinctKeys(es)
  {
    FillFrom(es, Quantities, d)
  }

  /** After filling, each original entry keeps its key and position; an entry
      that was filled, or whose key is not a quantity, keeps its value; an empty
      quantity holds the default; and what follows the original entries are
      absent quantities holding the default. */
  lemma {:induction false} FillKeepsEntries(es: Entries, d: string)
    requires DistinctKeys(es)
    ensures var r := FillWithDefaults(es, d);
      && |es| <= |r|
      && (forall i :: 0 <= i < |es| ==> r[i].0 == es[i].0)
      && (forall i :: 0 <= i < |es| && es[i].0 !in Quantities ==> r[i].1 == es[i].1)
      && (forall i :: 0 <= i < |es| && !Empty(es[i].1) ==> r[i].1 == es[i].1)
      && (forall i :: 0 <= i < |es| && es[i].0 in Quantities && Empty(es[i].1) ==> r[i].1 == d)
      && (forall j :: |es| <= j < |r| ==> r[j].0 in Quantities && r[j].0 !in Keys(es) && r[j].1 == d)
  {
    FillMatchesReference(es, Quantities, d);
    var added := Missing(Keys(es), Quantities);
    assert forall j :: 0 <= j < |added| ==> added[j] in added;
  }

  /** After filling, every quantity of the list is present, and at most the
      six quantities were added. */
  lemma {:induction false} FillCompletesCatalog(es: Entries, d: string)
    requires DistinctKeys(es)
    ensures var r := FillWithDefaults(es, d);
      && |r| <= |es| + |Quantities|
      && forall q :: q in Quantities ==> q in Keys(r)
  {
    FillMatchesReference(es, Quantities, d);
    var r := FillWithDefaults(es, d);
    var added := Missing(Keys(es), Quantities);
    ReferenceKeys(es, Quantities, d);
    assert Keys(r) == Keys(es) + added;
    MissingBound(Keys(es), Quantities);
  }

  lemma {:induction false} MissingBound(ks: seq<string>, qs: seq<string>)
    ensures |Missing(ks, qs)| <= |qs|
  {
    if qs != [] {
      MissingBound(ks, qs[..|qs| - 1]);
    }
  }

  lemma {:induction false} NoneMissing(ks: seq<string>, qs: seq<string>)
    requires forall q :: q in qs ==> q in ks
    ensures Missing(ks, qs) == []
  {
    if qs != [] {
      NoneMissing(ks, qs[..|qs| - 1]);
    }
  }

  /** Filling twice with the same default is the same as filling once. */
  lemma {:induction false} FillIdempotent(es: Entries, d: string)
    requires DistinctKeys(es)
    ensures FillWithDefaults(FillWithDefaults(es, d), d) == FillWithDefaults(es, d)
  {
    var r := FillWithDefaults(es, d);
    FillKeepsEntries(es, d);
    FillCompletesCatalog(es, d);
    NoneMissing(Keys(r), Quantities);
    FillMatchesReference(r, Quantities, d);
    var again := FilledReference(r, Quantities, d);
    assert |again| == |r|;
    forall i | 0 <= i < |r| ensures again[i] == r[i] {
      if i < |es| && r[i].0 in Quantities && Empty(r[i].1) {
        assert Empty(es[i].1);
      }
    }
  }

  // ---------------------------------------------------------------------------
  // Rendering

  /** Which of the renderers an item line is for. */
  datatype Style = XmlItem | JsonItem | PlainItem

  /** One entry of `$valueEntries`: a quantity and its escaped value. */
  function Item(style: Style, key: string, quantity: string, escaped: string): string {
    match style
    case XmlItem => "\t\t<item quantity=\"" + quantity + "\">" + escaped + "</item>"
    case JsonItem => "\t\t\"" + quantity + "\" : \"" + escaped + "\""
    case PlainItem => key + ";plurals;" + quantity + ";" + escaped
  }

  /** One item per entry of `vs`, in the order of `vs`. */
  function Items(style: Style, key: string, vs: Entries, esc: Escaper, fmt: Format): seq<string> {
    seq(|vs|, i requires 0 <= i < |vs| => Item(style, key, vs[i].0, esc(vs[i].1, fmt)))
  }

  function XmlOpen(key: string): string {
    "\t<plurals name=\"" + key + "\">"
  }

  const XmlClose: string := "\t</plurals>"

  function JsonOpen(key: string): string {
    "\t\"" + key + "\" : { \"type\" : \"plurals\", \"content\" : {"
  }

  const JsonClose: string := "\t} }"

  function XmlDocument(key: string, items: seq<string>): string {
    XmlOpen(key) + "\n" + Join("\n", items) + "\n" + XmlClose
  }

  function JsonDocument(key: string, items: seq<string>): string {
    JsonOpen(key) + "\n" + Join(",\n", items) + "\n" + JsonClose
  }

  function PlaintextDocument(items: seq<string>): string {
    Join("\n", items)
  }

  /** The phrase key, the quantities and their escaped values hold no line break. */
  predicate Unbroken(key: string, vs: Entries, esc: Escaper, fmt: Format) {
    && '\n' !in key
    && forall i :: 0 <= i < |vs| ==> '\n' !in vs[i].0 && '\n' !in esc(vs[i].1, fmt)
  }

  lemma {:induction false} ItemsUnbroken(style: Style, key: string, vs: Entries, esc: Escaper, fmt: Format)
    requires Unbroken(key, vs, esc, fmt)
    ensures forall i :: 0 <= i < |vs| ==> '\n' !in Items(style, key, vs, esc, fmt)[i]
  {
  }

  /** A block made of an opening line, the joined items and a closing line. */
  lemma {:induction false} BlockLines(open: string, items: seq<string>, close: string)
    requires '\n' !in open && '\n' !in close
    requires forall i :: 0 <= i < |items| ==> '\n' !in items[i]
    ensures Split(open + "\n" + Join("\n", items) + "\n" + close, '\n')
         == [open] + (if items == [] then [""] else items) + [close]
  {
    var body := Join("\n", items);
    calc {
      Split(open + "\n" + body + "\n" + close, '\n');
    == { assert open + "\n" + body + "\n" + close == open + ['\n'] + (body + ['\n'] + close); }
      Split(open + ['\n'] + (body + ['\n'] + close), '\n');
    == { SplitFirst(open, '\n', body + ['\n'] + close); }
      [open] + Split(body + ['\n'] + close, '\n');
    == { SplitConcat(body, '\n', close); SplitFree(close, '\n'); }
      [open] + (Split(body, '\n') + [close]);
    == { if items != [] { SplitJoin(items, '\n'); } }
      [open] + (if items == [] then [""] else items) + [close];
    }
  }

  /** Both XML renderers: an opening `<plurals>` line, then exactly one
      `<item>` line per entry in the order of the values (a blank line when
      there is none), then the closing line. */
  lemma {:induction false} XmlLines(key: string, vs: Entries, esc: Escaper, fmt: Format)
    requires Unbroken(key, vs, esc, fmt)
    ensures var lines := Split(XmlDocument(key, Items(XmlItem, key, vs, esc, fmt)), '\n');
      && |lines| == |vs| + (if vs == [] then 3 else 2)
      && lines[0] == "\t<plurals name=\"" + key + "\">"
      && lines[|lines| - 1] == "\t</plurals>"
      && (vs == [] ==> lines[1] == "")
      && forall i :: 0 <= i < |vs| ==>
           lines[i + 1] == "\t\t<item quantity=\"" + vs[i].0 + "\">" + esc(vs[i].1, fmt) + "</item>"
  {
    ItemsUnbroken(XmlItem, key, vs, esc, fmt);
    BlockLines(XmlOpen(key), Items(XmlItem, key, vs, esc, fmt), XmlClose);
  }

  /** The JSON block: `implode(",\n", ...)` puts a comma at the end of every
      item line but the last. */
  lemma {:induction false} JsonBlockLines(key: string, items: seq<string>)
    requires '\n' !in key
    requires forall i :: 0 <= i < |items| ==> '\n' !in items[i]
    ensures Split(JsonDocument(key, items), '\n')
         == [JsonOpen(key)] + (if items == [] then [""] else Terminated(items, ",")) + [JsonClose]
  {
    var lined := Terminated(items, ",");
    calc {
      Split(JsonDocument(key, items), '\n');
    == { JoinTerminated(",", "\n", items); assert "," + "\n" == ",\n"; }
      Split(JsonOpen(key) + "\n" + Join("\n", lined) + "\n" + JsonClose, '\n');
    == { assert forall i :: 0 <= i < |lined| ==> '\n' !in lined[i];
         BlockLines(JsonOpen(key), lined, JsonClose); }
      [JsonOpen(key)] + (if lined == [] then [""] else lined) + [JsonClose];
    }
  }

  /** The JSON renderer, its frame: an opening line, one line per entry (a
      blank line when there is none), then the closing line. */
  lemma {:induction false} JsonLines(key: string, vs: Entries, esc: Escaper)
    requires Unbroken(key, vs, esc, Json)
    ensures var lines := Split(JsonDocument(key, Items(JsonItem, key, vs, esc, Json)), '\n');
      && |lines| == |vs| + (if vs == [] then 3 else 2)
      && lines[0] == "\t\"" + key + "\" : { \"type\" : \"plurals\", \"content\" : {"
      && lines[|lines| - 1] == "\t} }"
      && (vs == [] ==> lines[1] == "")
  {
    ItemsUnbroken(JsonItem, key, vs, esc, Json);
    JsonBlockLines(key, Items(JsonItem, key, vs, esc, Json));
  }

  /** The JSON renderer, its entries: one `"quantity" : "value"` line per
      entry in the order of the values, each but the last followed by a
      comma. */
  lemma {:induction false} JsonItemLines(key: string, vs: Entries, esc: Escaper)
    requires Unbroken(key, vs, esc, Json) && vs != []
    ensures var lines := Split(JsonDocument(key, Items(JsonItem, key, vs, esc, Json)), '\n');
      && |lines| == |vs| + 2
      && (forall i :: 0 <= i < |vs| - 1 ==>
            lines[i + 1] == Item(JsonItem, key, vs[i].0, esc(vs[i].1, Json)) + ",")
      && lines[|vs|] == Item(JsonItem, key, vs[|vs| - 1].0, esc(vs[|vs| - 1].1, Json))
  {
    var items := Items(JsonItem, key, vs, esc, Json);
    ItemsUnbroken(JsonItem, key, vs, esc, Json);
    JsonBlockLines(key, items);
    var lines := Split(JsonDocument(key, items), '\n');
    var lined := Terminated(items, ",");
    assert lines == [JsonOpen(key)] + lined + [JsonClose];
    forall i | 0 <= i < |vs| - 1
      ensures lines[i + 1] == Item(JsonItem, key, vs[i].0, esc(vs[i].1, Json)) + ","
    {
      assert lines[i + 1] == lined[i] == items[i] + ",";
    }
    assert lines[|vs|] == lined[|vs| - 1] == items[|vs| - 1];
  }

  /** The plaintext renderer: exactly one `key;plurals;quantity;value` line per
      entry, in the order of the values, and no trailing newline. */
  lemma {:induction false} PlaintextLines(key: string, vs: Entries, esc: Escaper)
    requires Unbroken(key, vs, esc, Plaintext)
    ensures vs == [] ==> PlaintextDocument(Items(PlainItem, key, vs, esc, Plaintext)) == ""
    ensures vs != [] ==>
      var lines := Split(PlaintextDocument(Items(PlainItem, key, vs, esc, Plaintext)), '\n');
      && |lines| == |vs|
      && forall i :: 0 <= i < |vs| ==>
           lines[i] == key + ";plurals;" + vs[i].0 + ";" + esc(vs[i].1, Plaintext)
  {
    if vs != [] {
      ItemsUnbroken(PlainItem, key, vs, esc, Plaintext);
      SplitJoin(Items(PlainItem, key, vs, esc, Plaintext), '\n');
    }
  }

  // ---------------------------------------------------------------------------
  // The phrase object

  class PluralsPhrase {
    const phraseKey: string
    var values: Entries
    var isEmpty: bool

    ghost predicate Valid()
      reads this
    {
      DistinctKeys(values)
    }

    /** A new phrase holds the six quantities, in list order, all "". The
        initial `isEmpty` comes from the base class and is left open. */
    constructor (phraseKey: string)
      ensures Valid() && this.phraseKey == phraseKey
      ensures Keys(values) == Quantities
      ensures forall i :: 0 <= i < |values| ==> values[i].1 == ""
    {
      this.phraseKey := phraseKey;
      values := Blank(Quantities);
      assert Keys(Blank(Quantities)) == Quantities;
    }

    /** `getPayload()`, before JSON encoding. */
    function GetPayload(): (p: Payload)
      reads this
      ensures p.cls == "Phrase_Android_Plurals" && p.values == values
    {
      PayloadFromValue(values)
    }

    /** `getPhraseValues()`: the live values. */
    function GetPhraseValues(): (r: Entries)
      reads this
      ensures r == values
    {
      values
    }

    /** `setPayload($json, $createKeysOnly, $isUsingDefaultPhrase)` on the
        decoded payload. In full mode the values become the payload's, and the
        phrase is empty exactly when it only borrows the default language's
        value or no payload value is filled; in keys-only mode the values become
        the payload's keys, each "", and the phrase is empty. */
    method SetPayload(payload: Payload, createKeysOnly: bool, isUsingDefaultPhrase: bool)
      requires Valid() && DistinctKeys(payload.values)
      modifies this
      ensures Valid()
      ensures !createKeysOnly ==> values == payload.values
      ensures !createKeysOnly ==>
        (isEmpty <==> isUsingDefaultPhrase || forall i :: 0 <= i < |payload.values| ==> Empty(payload.values[i].1))
      ensures createKeysOnly ==> isEmpty && Keys(values) == Keys(payload.values)
      ensures createKeysOnly ==> forall i :: 0 <= i < |values| ==> values[i].1 == ""
    {
      var data := payload;
      if !createKeysOnly {
        var hasValues := false;
        if !isUsingDefaultPhrase {
          for i := 0 to |data.values|
            invariant hasValues <==> exists j :: 0 <= j < i && !Empty(data.values[j].1)
          {
            if !Empty(data.values[i].1) {
              hasValues := true;
            }
          }
        }
        isEmpty := !hasValues;
        values := data.values;
      } else {
        isEmpty := true;
        values := [];
        var keys := Keys(data.values);
        for n := 0 to |keys|
          invariant isEmpty
          invariant values == Blank(keys[..n])
        {
          assert keys[..n + 1] == keys[..n] + [keys[n]];
          var visited := keys[..n + 1];
          assert Distinct(visited) by {
            forall i, j | 0 <= i < j < |visited| ensures visited[i] != visited[j] {
              assert visited[i] == keys[i] && visited[j] == keys[j];
            }
          }
          BlankSnoc(keys[..n], keys[n]);
          values := Assign(values, keys[n], "");
        }
        assert keys[..|keys|] == keys;
        assert Keys(Blank(keys)) == keys;
      }
    }

    /** `setPhraseValue($subKey, $value)`: on a present key only that entry's
        value changes, keys and order stay; an unknown key is refused and
        nothing changes. */
    method SetPhraseValue(subKey: string, value: string) returns (r: Outcome)
      requires Valid()
      modifies this
      ensures Valid() && isEmpty == old(isEmpty)
      ensures r.Pass? <==> subKey in Keys(old(values))
      ensures r.Fail? ==> r.error == UnknownSubKey(subKey) && values == old(values)
      ensures r.Pass? ==> Keys(values) == Keys(old(values))
      ensures r.Pass? ==> forall i :: 0 <= i < |values| ==>
        values[i].1 == (if values[i].0 == subKey then value else old(values)[i].1)
    {
      if subKey in Keys(values) {
        values := Assign(values, subKey, value);
        r := Pass;
      } else {
        r := Fail(UnknownSubKey(subKey));
      }
    }

    /** `addValue($value, $subKey)`: the same contract as `SetPhraseValue`
        with the other exception. */
    method AddValue(value: string, subKey: string) returns (r: Outcome)
      requires Valid()
      modifies this
      ensures Valid() && isEmpty == old(isEmpty)
      ensures r.Pass? <==> subKey in Keys(old(values))
      ensures r.Fail? ==> r.error == UnknownQuantityId(subKey) && values == old(values)
      ensures r.Pass? ==> Keys(values) == Keys(old(values))
      ensures r.Pass? ==> forall i :: 0 <= i < |values| ==>
        values[i].1 == (if values[i].0 == subKey then value else old(values)[i].1)
    {
      if subKey in Keys(values) {
        values := Assign(values, subKey, value);
        r := Pass;
      } else {
        r := Fail(UnknownQuantityId(subKey));
      }
    }

    /** `fillWithDefault($defaultValue)`. */
    method FillWithDefault(defaultValue: string)
      requires Valid()
      modifies this
      ensures Valid() && isEmpty == old(isEmpty)
      ensures values == FillWithDefaults(old(values), defaultValue)
    {
      ghost var start := values;
      for n := 0 to |Quantities|
        invariant DistinctKeys(start) && isEmpty == old(isEmpty)
        invariant values == FillFrom(start, Quantities[..n], defaultValue)
      {
        var quantity := Quantities[n];
        assert FillFrom(start, Quantities[..n + 1], defaultValue)
            == if EmptyAt(values, quantity) then Assign(values, quantity, defaultValue) else values by {
          assert Quantities[..n + 1] == Quantities[..n] + [quantity];
          FillFromSnoc(start, Quantities[..n], quantity, defaultValue);
        }
        if EmptyAt(values, quantity) {
          values := Assign(values, quantity, defaultValue);
        }
      }
      assert Quantities[..|Quantities|] == Quantities;
    }

    /** `getCompleteness()`: the number of filled values and the number of
        values. */
    method GetCompleteness() returns (complete: nat, total: nat)
      ensures complete == CountFilled(Values(values)) && total == |values|
      ensures complete <= total
    {
      complete, total := 0, 0;
      for i := 0 to |values|
        invariant total == i
        invariant complete == CountFilled(Values(values[..i]))
      {
        assert Values(values[..i + 1])[..i] == Values(values[..i]);
        if !Empty(values[i].1) {
          complete := complete + 1;
        }
        total := total + 1;
      }
      assert values[..|values|] == values;
    }

    /** The `foreach` that fills `$valueEntries` in every renderer. */
    method CollectItems(style: Style, fmt: Format, esc: Escaper) returns (entries: seq<string>)
      ensures entries == Items(style, phraseKey, values, esc, fmt)
    {
      entries := [];
      for i := 0 to |values|
        invariant |entries| == i
        invariant forall j :: 0 <= j < i ==>
          entries[j] == Item(style, phraseKey, values[j].0, esc(values[j].1, fmt))
      {
        entries := entries + [Item(style, phraseKey, values[i].0, esc(values[i].1, fmt))];
      }
    }

    /** `outputAndroidXML()`. */
    method OutputAndroidXml(esc: Escaper) returns (out: string)
      ensures out == XmlDocument(phraseKey, Items(XmlItem, phraseKey, values, esc, AndroidXml))
    {
      var valueEntries := CollectItems(XmlItem, AndroidXml, esc);
      out := XmlDocument(phraseKey, valueEntries);
    }

    /** `outputAndroidXMLEscapedHTML()`. */
    method OutputAndroidXmlEscapedHtml(esc: Escaper) returns (out: string)
      ensures out == XmlDocument(phraseKey, Items(XmlItem, phraseKey, values, esc, AndroidXmlEscapedHtml))
    {
      var valueEntries := CollectItems(XmlItem, AndroidXmlEscapedHtml, esc);
      out := XmlDocument(phraseKey, valueEntries);
    }

    /** `outputJSON()`. */
    method OutputJson(esc: Escaper) returns (out: string)
      ensures out == JsonDocument(phraseKey, Items(JsonItem, phraseKey, values, esc, Json))
    {
      var valueEntries := CollectItems(JsonItem, Json, esc);
      out := JsonDocument(phraseKey, valueEntries);
    }

    /** `outputPlaintext()`. */
    method OutputPlaintext(esc: Escaper) returns (out: string)
      ensures out == PlaintextDocument(Items(PlainItem, phraseKey, values, esc, Plaintext))
    {
      var valueEntries := CollectItems(PlainItem, Plaintext, esc);
      out := PlaintextDocument(valueEntries);
    }
  }

  /** A new phrase reports nothing of six values filled. */
  method FreshCompleteness(key: string) returns (complete: nat, total: nat)
    ensures complete == 0 && total == 6
  {
    var phrase := new PluralsPhrase(key);
    complete, total := phrase.GetCompleteness();
    assert forall i :: 0 <= i < |phrase.values| ==> Values(phrase.values)[i] == "";
  }

  /** Setting a phrase's own payload in full mode keeps its values, and it is
      then empty exactly when none of them is filled; in keys-only mode it keeps
      the keys and clears every value. */
  method PayloadRoundTrip(phrase: PluralsPhrase, createKeysOnly: bool)
    requires phrase.Valid()
    modifies phrase
    ensures phrase.Valid()
    ensures Keys(phrase.GetPhraseValues()) == Keys(old(phrase.GetPhraseValues()))
    ensures !createKeysOnly ==> phrase.GetPhraseValues() == old(phrase.GetPhraseValues())
    ensures !createKeysOnly ==> (phrase.isEmpty <==> CountFilled(Values(old(phrase.values))) == 0)
    ensures createKeysOnly ==> phrase.isEmpty && CountFilled(Values(phrase.values)) == 0
  {
    var payload := phrase.GetPayload();
    phrase.SetPayload(payload, createKeysOnly, false);
    assert forall i :: 0 <= i < |phrase.values| ==> Values(phrase.values)[i] == phrase.values[i].1;
  }
}

/** A string-array phrase of an Android string resource: an ordered list of
    strings, rendered as a `<string-array>` block. */
module StringArray {
  import opened Php
  import opened RawEscaper

  /** The class tag written into every payload. */
  const PayloadClass: string := "Phrase_Android_StringArray"

  /** The decoded JSON payload: the class tag and the `values` list. */
  datatype Payload = Payload(cls: string, values: seq<string>)

  /** `getPayloadFromValue($value)`, before JSON encoding. */
  function PayloadFromValue(value: seq<string>): (p: Payload)
    ensures p.cls == "Phrase_Android_StringArray" && p.values == value
  {
    Payload(PayloadClass, value)
  }

  function OpenTag(key: string): string {
    "\t<string-array name=\"" + key + "\">"
  }

  const CloseTag: string := "\t</string-array>"

  /** One `<item>` line, without its line break. */
  function ItemLine(escaped: string): string {
    "\t\t<item>" + escaped + "</item>"
  }

  /** The item lines for `vs`, in list order. */
  function ItemLines(vs: seq<string>, esc: Escaper): seq<string> {
    seq(|vs|, i requires 0 <= i < |vs| => ItemLine(esc(vs[i], DefaultFormat)))
  }

  /** The lines of `output()`: the opening line, one item line per value and
      the closing line. */
  function DocumentParts(key: string, vs: seq<string>, esc: Escaper): seq<string> {
    [OpenTag(key)] + ItemLines(vs, esc) + [CloseTag]
  }

  /** What `output()` returns: every line followed by a line break. */
  function Document(key: string, vs: seq<string>, esc: Escaper): string {
    Lines(DocumentParts(key, vs, esc))
  }

  lemma {:induction false} PartsUnbroken(key: string, vs: seq<string>, esc: Escaper)
    requires '\n' !in key
    requires forall i :: 0 <= i < |vs| ==> '\n' !in esc(vs[i], DefaultFormat)
    ensures var parts := DocumentParts(key, vs, esc);
      forall i :: 0 <= i < |parts| ==> '\n' !in parts[i]
  {
    var parts := DocumentParts(key, vs, esc);
    forall i | 0 <= i < |parts| ensures '\n' !in parts[i] {
      if i == 0 {
        assert parts[i] == OpenTag(key);
      } else if i <= |vs| {
        assert parts[i] == ItemLine(esc(vs[i - 1], DefaultFormat));
      } else {
        assert parts[i] == CloseTag;
      }
    }
  }

  /** Read back line by line, `output()` gives its lines and an empty piece
      after the final line break. */
  lemma {:induction false} DocumentLines(key: string, vs: seq<string>, esc: Escaper)
    requires '\n' !in key
    requires forall i :: 0 <= i < |vs| ==> '\n' !in esc(vs[i], DefaultFormat)
    ensures Split(Document(key, vs, esc), '\n') == DocumentParts(key, vs, esc) + [""]
  {
    PartsUnbroken(key, vs, esc);
    SplitAllLines(DocumentParts(key, vs, esc));
  }

  /** `output()` has an opening line, exactly one `<item>` line per value in
      list order, a closing line, and ends with a line break. */
  lemma {:induction false} OutputLines(key: string, vs: seq<string>, esc: Escaper)
    requires '\n' !in key
    requires forall i :: 0 <= i < |vs| ==> '\n' !in esc(vs[i], DefaultFormat)
    ensures var lines := Split(Document(key, vs, esc), '\n');
      && |lines| == |vs| + 3
      && lines[0] == "\t<string-array name=\"" + key + "\">"
      && (forall i :: 0 <= i < |vs| ==> lines[i + 1] == "\t\t<item>" + esc(vs[i], DefaultFormat) + "</item>")
      && lines[|vs| + 1] == "\t</string-array>"
      && lines[|vs| + 2] == ""
  {
    DocumentLines(key, vs, esc);
    var lines := DocumentParts(key, vs, esc) + [""];
    assert forall i :: 0 <= i < |vs| ==> lines[i + 1] == ItemLines(vs, esc)[i];
  }

  class StringArrayPhrase {
    const phraseKey: string
    var values: seq<string>
    var isEmpty: bool

    /** A new phrase has no values. The initial `isEmpty` comes from the base
        class and is left open. */
    constructor (phraseKey: string)
      ensures this.phraseKey == phraseKey && values == []
    {
      this.phraseKey := phraseKey;
      values := [];
    }

    /** `getValues()`. */
    function GetValues(): (r: seq<string>)
      reads this
      ensures r == values
    {
      values
    }

    /** `getPhraseValues()`. */
    function GetPhraseValues(): (r: seq<string>)
      reads this
      ensures r == values
    {
      values
    }

    /** `setValues($values)`: both getters then return the given list. */
    method SetValues(xs: seq<string>)
      modifies this
      ensures GetValues() == xs && GetPhraseValues() == xs
      ensures isEmpty == old(isEmpty)
    {
      values := xs;
    }

    /** `addValue($value)`: appends, duplicates included. */
    method AddValue(value: string)
      modifies this
      ensures |values| == |old(values)| + 1
      ensures values[|values| - 1] == value
      ensures values[..|old(values)|] == old(values)
      ensures isEmpty == old(isEmpty)
    {
      values := values + [value];
    }

    /** `output()`. */
    method Output(esc: Escaper) returns (out: string)
      ensures out == Document(phraseKey, values, esc)
    {
      out := OpenTag(phraseKey) + "\n";
      LinesSnoc([], OpenTag(phraseKey));
      for i := 0 to |values|
        invariant out == Lines([OpenTag(phraseKey)] + ItemLines(values[..i], esc))
      {
        var item := ItemLine(esc(values[i], DefaultFormat));
        var before := [OpenTag(phraseKey)] + ItemLines(values[..i], esc);
        assert ItemLines(values[..i + 1], esc) == ItemLines(values[..i], esc) + [item];
        assert [OpenTag(phraseKey)] + ItemLines(values[..i + 1], esc) == before + [item];
        LinesSnoc(before, item);
        out := out + item + "\n";
      }
      assert values[..|values|] == values;
      LinesSnoc([OpenTag(phraseKey)] + ItemLines(values, esc), CloseTag);
      out := out + CloseTag + "\n";
    }

    /** `getCompleteness()`: the share of filled values, as the pair (filled,
        total); the source divides by the total, so the list must not be empty. */
    method GetCompleteness() returns (complete: nat, total: nat)
      requires |values| > 0
      ensures complete == CountFilled(values) && total == |values|
      ensures 0 <= complete <= total && 0 < total
    {
      complete, total := 0, 0;
      for i := 0 to |values|
        invariant total == i
        invariant complete == CountFilled(values[..i])
      {
        assert values[..i + 1][..i] == values[..i];
        if !Empty(values[i]) {
          complete := complete + 1;
        }
        total := total + 1;
      }
      assert values[..|values|] == values;
    }

    /** `getPayload()`, before JSON encoding. */
    function GetPayload(): (p: Payload)
      reads this
      ensures p.cls == "Phrase_Android_StringArray" && p.values == values
    {
      PayloadFromValue(values)
    }

    /** `setPayload($json, $createKeysOnly)` on the decoded payload. In full
        mode the values become the payload's list; in keys-only mode they become
        as many "" as the payload has values (its keys are 0 to n - 1). The
        `isEmpty` flag is not touched. */
    method SetPayload(payload: Payload, createKeysOnly: bool)
      modifies this
      ensures !createKeysOnly ==> values == payload.values
      ensures createKeysOnly ==> |values| == |payload.values|
      ensures createKeysOnly ==> forall i :: 0 <= i < |values| ==> values[i] == ""
      ensures isEmpty == old(isEmpty)
    {
      var data := payload;
      if !createKeysOnly {
        values := data.values;
      } else {
        values := [];
        for key := 0 to |data.values|
          invariant isEmpty == old(isEmpty)
          invariant |values| == key
          invariant forall i :: 0 <= i < key ==> values[i] == ""
        {
          // $this->values[$key] = '' with $key == count($this->values) appends
          values := values + [""];
        }
      }
    }
  }

  /** Setting a phrase's own payload in full mode restores its values; in
      keys-only mode it keeps the length and clears every value. */
  method PayloadRoundTrip(phrase: StringArrayPhrase, createKeysOnly: bool)
    modifies phrase
    ensures |phrase.GetValues()| == |old(phrase.GetValues())|
    ensures !createKeysOnly ==> phrase.GetValues() == old(phrase.GetValues())
    ensures createKeysOnly ==> CountFilled(phrase.GetValues()) == 0
  {
    var payload := phrase.GetPayload();
    phrase.SetPayload(payload, createKeysOnly);
  }
}

/** Items: a declared record shape (a table of field name to Selector) and the record
    extracted from one page by running every selector on the unescaped markup. */
module Items {
  import opened Wrappers

  /** A selector as declared on an item class: a CSS query (optionally reading an
      attribute of every match) or a regular expression. What it extracts is external. */
  datatype Selector = Css(rule: string, attr: Option<string>) | Regex(rule: string)

  /** A value a selector extracts: one text, or a list of texts. */
  datatype Value = Text(text: string) | Texts(items: seq<string>)

  /** The external markup capabilities: `html.unescape` and `Selector.get_select`,
      whose `None` means "not found". */
  datatype Markup = Markup(unescape: string -> string, select: (Selector, string) -> Option<Value>)

  /** A class-body attribute: a Selector instance, or anything else (methods, constants). */
  datatype Attribute = SelectorAttribute(selector: Selector) | OtherAttribute

  /** One entry of an item class's `selector` table. */
  datatype Field = Field(name: string, selector: Selector)

  /** The `selector` table, in class-body order (a Python dict keeps insertion order). */
  type FieldTable = seq<Field>

  /** The names of a class body never repeat: it is a Python dict. */
  predicate DistinctNames(namespace: seq<(string, Attribute)>)
  {
    forall i, j :: 0 <= i < j < |namespace| ==> namespace[i].0 != namespace[j].0
  }

  predicate DistinctFields(table: FieldTable)
  {
    forall i, j :: 0 <= i < j < |table| ==> table[i].name != table[j].name
  }

  function FieldNames(table: FieldTable): set<string>
  {
    set i | 0 <= i < |table| :: table[i].name
  }

  /** The Selector attributes of a class body, in order. */
  function SelectorsOf(namespace: seq<(string, Attribute)>): FieldTable
  {
    if namespace == [] then []
    else
      var last := namespace[|namespace| - 1];
      var prefix := SelectorsOf(namespace[..|namespace| - 1]);
      match last.1
      case SelectorAttribute(s) => prefix + [Field(last.0, s)]
      case OtherAttribute => prefix
  }

  /** The table holds exactly the Selector attributes of the body, keyed by their
      attribute names, and no name twice. */
  lemma {:induction false} SelectorsOfExact(namespace: seq<(string, Attribute)>)
    requires DistinctNames(namespace)
    ensures forall name, s :: Field(name, s) in SelectorsOf(namespace) <==> (name, SelectorAttribute(s)) in namespace
    ensures DistinctFields(SelectorsOf(namespace))
    ensures forall f :: f in SelectorsOf(namespace) ==> exists a :: (f.name, a) in namespace
  {
    if namespace != [] {
      var n := |namespace|;
      var prefix := namespace[..n - 1];
      assert DistinctNames(prefix);
      SelectorsOfExact(prefix);
      assert namespace == prefix + [namespace[n - 1]];
      forall f | f in SelectorsOf(prefix) ensures f.name != namespace[n - 1].0 {
        var a :| (f.name, a) in prefix;
        var i :| 0 <= i < |prefix| && prefix[i] == (f.name, a);
        assert namespace[i].0 != namespace[n - 1].0;
      }
    }
  }

  /** The metaclass step that builds the class's `selector` table: every class-body
      attribute that is a Selector is recorded under its name, in body order. */
  method CollectSelectors(namespace: seq<(string, Attribute)>) returns (table: FieldTable)
    ensures table == SelectorsOf(namespace)
  {
    table := [];
    for i := 0 to |namespace|
      invariant table == SelectorsOf(namespace[..i])
    {
      assert namespace[..i + 1][..i] == namespace[..i];
      var (name, value) := namespace[i];
      if value.SelectorAttribute? {
        table := table + [Field(name, value.selector)];
      }
    }
    assert namespace[..|namespace|] == namespace;
  }

  /** The `result` mapping `Item.__init__` builds from `html` (already unescaped): the
      fields are visited in table order and each gets its selector's value, unless
      the selector returned `None`, in which case the field is skipped. */
  function Extract(table: FieldTable, html: string, select: (Selector, string) -> Option<Value>): map<string, Value>
  {
    if table == [] then map[]
    else
      var last := table[|table| - 1];
      var prefix := Extract(table[..|table| - 1], html, select);
      match select(last.selector, html)
      case None => prefix
      case Some(contents) => prefix[last.name := contents]
  }

  /** Every key of `result` names a field of the table. */
  lemma {:induction false} ExtractKeys(table: FieldTable, html: string, select: (Selector, string) -> Option<Value>)
    ensures Extract(table, html, select).Keys <= FieldNames(table)
  {
    if table != [] {
      var prefix := table[..|table| - 1];
      ExtractKeys(prefix, html, select);
      assert FieldNames(prefix) <= FieldNames(table) by {
        forall k | k in FieldNames(prefix) ensures k in FieldNames(table) {
          var i :| 0 <= i < |prefix| && prefix[i].name == k;
          assert table[i].name == k;
        }
      }
    }
  }

  /** A field is in `result` exactly when its selector found something on the page,
      and then its value is what the selector returned. */
  lemma {:induction false} ExtractField(table: FieldTable, html: string, select: (Selector, string) -> Option<Value>, i: nat)
    requires DistinctFields(table) && i < |table|
    ensures var r := Extract(table, html, select);
      && (table[i].name in r <==> select(table[i].selector, html).Some?)
      && (table[i].name in r ==> r[table[i].name] == select(table[i].selector, html).value)
    decreases |table|
  {
    var n := |table|;
    var prefix := table[..n - 1];
    if i == n - 1 {
      if select(table[i].selector, html).None? {
        ExtractKeys(prefix, html, select);
        forall j | 0 <= j < |prefix| ensures prefix[j].name != table[i].name {
          assert prefix[j] == table[j];
        }
      }
    } else {
      ExtractField(prefix, html, select, i);
      assert table[i].name != table[n - 1].name;
    }
  }

  /** A selector that finds nothing changes nothing: the result is the same as if its
      field had not been declared. */
  lemma SkippedFieldIsIrrelevant(table: FieldTable, html: string, select: (Selector, string) -> Option<Value>, i: nat)
    requires DistinctFields(table) && i < |table|
    requires select(table[i].selector, html).None?
    ensures Extract(table[..i] + table[i + 1..], html, select) == Extract(table, html, select)
  {
    var without := table[..i] + table[i + 1..];
    RemovalKeepsDistinct(table, i);
    var r, r' := Extract(table, html, select), Extract(without, html, select);
    ExtractKeys(table, html, select);
    ExtractKeys(without, html, select);
    ExtractField(table, html, select, i);
    forall k | k in r ensures k in r' && r'[k] == r[k] {
      var j :| 0 <= j < |table| && table[j].name == k;
      SameFieldAfterRemoval(table, without, html, select, i, j);
    }
    forall k | k in r' ensures k in r {
      var j' :| 0 <= j' < |without| && without[j'].name == k;
      SameFieldAfterRemoval(table, without, html, select, i, if j' < i then j' else j' + 1);
    }
    assert r'.Keys == r.Keys;
  }

  /** Removing field `i` shifts the later fields down by one and keeps names distinct. */
  lemma RemovalKeepsDistinct(table: FieldTable, i: nat)
    requires DistinctFields(table) && i < |table|
    ensures var without := table[..i] + table[i + 1..];
      && |without| == |table| - 1
      && (forall m :: 0 <= m < i ==> without[m] == table[m])
      && (forall m :: i <= m < |without| ==> without[m] == table[m + 1])
      && DistinctFields(without)
  {
    var without := table[..i] + table[i + 1..];
    forall a, b | 0 <= a < b < |without| ensures without[a].name != without[b].name {
      var a', b' := if a < i then a else a + 1, if b < i then b else b + 1;
      assert without[a] == table[a'] && without[b] == table[b'];
    }
  }

  /** With field `i` removed, every other field `j` is found exactly as before. */
  lemma SameFieldAfterRemoval(table: FieldTable, without: FieldTable, html: string,
                              select: (Selector, string) -> Option<Value>, i: nat, j: nat)
    requires DistinctFields(table) && DistinctFields(without)
    requires i < |table| && |without| == |table| - 1
    requires forall m :: 0 <= m < i ==> without[m] == table[m]
    requires forall m :: i <= m < |without| ==> without[m] == table[m + 1]
    requires j < |table| && j != i
    ensures var j' := if j < i then j else j - 1;
      0 <= j' < |without| && without[j'] == table[j]
    ensures var r, r' := Extract(table, html, select), Extract(without, html, select);
      (table[j].name in r <==> table[j].name in r')
      && (table[j].name in r ==> r'[table[j].name] == r[table[j].name])
  {
    var j' := if j < i then j else j - 1;
    assert without[j'] == table[j];
    ExtractField(table, html, select, j);
    ExtractField(without, html, select, j');
  }

  /** What a `save` call did: it returned normally, or raised. */
  datatype SaveOutcome = Saved | Raised(error: PythonError)

  datatype PythonError = TypeError(message: string)

  /** An extracted item: the class's field table and the `result` mapping filled in place. */
  class Item {
    const selector: FieldTable
    var result: map<string, Value>

    /** `Item(html)`: unescape the markup once, then visit the fields in table order;
        a field whose selector returns `None` is skipped (and logged), the others are
        stored in `result`. */
    constructor (selector: FieldTable, html: string, markup: Markup)
      ensures this.selector == selector
      ensures result == Extract(selector, markup.unescape(html), markup.select)
    {
      this.selector := selector;
      result := map[];
      new;
      var text := markup.unescape(html);
      for i := 0 to |selector|
        invariant this.selector == selector
        invariant result == Extract(selector[..i], text, markup.select)
      {
        assert selector[..i + 1][..i] == selector[..i];
        var contents := markup.select(selector[i].selector, text);
        if contents.None? {
          continue;
        }
        result := result[selector[i].name := contents.value];
      }
      assert selector[..|selector|] == selector;
    }

    /** The default `save`: an item class that does not override it cannot be saved. */
    method Save() returns (outcome: SaveOutcome)
      ensures outcome.Raised? && outcome.error.TypeError?
      ensures outcome.error.message == "No save operation."
    {
      outcome := Raised(TypeError("No save operation."));
    }
  }
}

/** The two layouts of cJSON, on small trees. */
module CJsonSamples {
  import opened Bytes
  import opened CJsonText

  // ----- building up a text

  lemma Digit(d: nat, depth: nat, fmt: bool)
    requires d < 10
    ensures Text(Number(d), depth, fmt) == [48 + d]
  {
  }

  lemma Letter(c: byte)
    requires 97 <= c <= 122
    ensures Quoted([c]) == [34, c, 34]
  {
    assert [c][1..] == [] && Escape([c]) == EscapeByte(c) + Escape([]);
  }

  lemma Words(depth: nat, fmt: bool)
    ensures Text(Null, depth, fmt) == [110, 117, 108, 108] && Text(Array([]), depth, fmt) == [91, 93]
  {
  }

  lemma ThreeItems(x: Node, y: Node, z: Node, fmt: bool)
    ensures ItemsText([x, y, z], 1, fmt)
            == Text(x, 1, fmt) + [44] + If(fmt, [32]) + (Text(y, 1, fmt) + [44] + If(fmt, [32]) + Text(z, 1, fmt))
  {
    assert [x, y, z][1..] == [y, z] && [y, z][1..] == [z];
    hide Text, If;
    assert ItemsText([z], 1, fmt) == Text(z, 1, fmt);
    assert ItemsText([y, z], 1, fmt) == Text(y, 1, fmt) + [44] + If(fmt, [32]) + ItemsText([z], 1, fmt);
  }

  lemma ItemsParts(fmt: bool)
    ensures Text(Array([Number(1), Null, Number(5)]), 0, fmt)
            == [91] + ([49] + [44] + If(fmt, [32]) + ([110, 117, 108, 108] + [44] + If(fmt, [32]) + [53])) + [93]
  {
    Digit(1, 1, fmt);
    Digit(5, 1, fmt);
    Words(1, fmt);
    ThreeItems(Number(1), Null, Number(5), fmt);
    ArrayText([Number(1), Null, Number(5)], 0, fmt);
    hide Text, ItemsText, If;
  }

  lemma OneField(f: Field, depth: nat, fmt: bool)
    ensures FieldsText([f], depth, fmt) == FieldText(f, depth, fmt, true)
  {
    assert [f][1..] == [];
    hide FieldText;
    assert FieldText(f, depth, fmt, true) + [] == FieldText(f, depth, fmt, true);
  }

  lemma TwoFields(f: Field, g: Field, depth: nat, fmt: bool)
    ensures FieldsText([f, g], depth, fmt) == FieldText(f, depth, fmt, false) + FieldText(g, depth, fmt, true)
  {
    assert [f, g][1..] == [g];
    OneField(g, depth, fmt);
    hide FieldText;
  }

  lemma Member(c: byte, v: Node, depth: nat, fmt: bool, last: bool)
    requires 97 <= c <= 122
    ensures FieldText(Field([c], v), depth, fmt, last)
            == If(fmt, Tabs(depth)) + [34, c, 34] + [58] + If(fmt, [9]) + Text(v, depth, fmt)
               + (if last then [] else [44]) + If(fmt, [10])
  {
    Letter(c);
    hide Text, If, Quoted, Tabs;
  }

  const INNER: Node := Object([Field([97], Array([]))])

  lemma InnerParts(fmt: bool)
    ensures Text(INNER, 1, fmt)
            == [123] + If(fmt, [10])
               + (If(fmt, Tabs(2)) + [34, 97, 34] + [58] + If(fmt, [9]) + [91, 93] + [] + If(fmt, [10]))
               + If(fmt, Tabs(1)) + [125]
  {
    var f := Field([97], Array([]));
    OneField(f, 2, fmt);
    Member(97, Array([]), 2, fmt, true);
    Words(2, fmt);
    ObjectText([f], 1, fmt);
    hide Text, FieldText, FieldsText, If, Tabs;
  }

  lemma OuterParts(fmt: bool)
    ensures Text(Object([Field([98], INNER)]), 0, fmt)
            == [123] + If(fmt, [10])
               + (If(fmt, Tabs(1)) + [34, 98, 34] + [58] + If(fmt, [9]) + Text(INNER, 1, fmt) + [] + If(fmt, [10]))
               + If(fmt, Tabs(0)) + [125]
  {
    var f := Field([98], INNER);
    OneField(f, 1, fmt);
    Member(98, INNER, 1, fmt, true);
    ObjectText([f], 0, fmt);
    hide Text, FieldText, FieldsText, If, Tabs;
  }

  lemma PairParts(fmt: bool)
    ensures Text(Object([Field([97], Number(1)), Field([98], Number(2))]), 0, fmt)
            == [123] + If(fmt, [10])
               + ((If(fmt, Tabs(1)) + [34, 97, 34] + [58] + If(fmt, [9]) + [49] + [44] + If(fmt, [10]))
                  + (If(fmt, Tabs(1)) + [34, 98, 34] + [58] + If(fmt, [9]) + [50] + [] + If(fmt, [10])))
               + If(fmt, Tabs(0)) + [125]
  {
    var f, g := Field([97], Number(1)), Field([98], Number(2));
    TwoFields(f, g, 1, fmt);
    Member(97, Number(1), 1, fmt, false);
    Member(98, Number(2), 1, fmt, true);
    Digit(1, 1, fmt);
    Digit(2, 1, fmt);
    ObjectText([f, g], 0, fmt);
    hide Text, FieldText, FieldsText, If, Tabs;
  }

  lemma FewTabs()
    ensures Tabs(0) == [] && Tabs(1) == [9] && Tabs(2) == [9, 9]
  {
  }

  // ----- the samples

  /** The bytes that need no escape are printed as they are, and no others. */
  lemma BytesStay(b: byte)
    ensures Escape([b]) == [b] <==> b >= 32 && b != 34 && b != 92
  {
    assert [b][1..] == [] && Escape([b]) == EscapeByte(b) + Escape([]);
  }

  /** The items of an array stand on one line. */
  lemma PrettyItems()
    ensures Text(Array([Number(1), Null, Number(5)]), 0, true) == Ascii("[1, null, 5]")
  {
    ItemsParts(true);
    hide Text;
  }

  lemma PlainItems()
    ensures Text(Array([Number(1), Null, Number(5)]), 0, false) == Ascii("[1,null,5]")
  {
    ItemsParts(false);
    hide Text;
  }

  /** An empty object takes two lines when formatted, its brace one tab less than its depth. */
  lemma EmptyObject(fmt: bool)
    ensures Text(Object([]), 0, fmt) == if fmt then Ascii("{\n}") else Ascii("{}")
    ensures Text(Object([]), 2, fmt) == if fmt then Ascii("{\n\t}") else Ascii("{}")
  {
  }

  /** Members stand on lines of their own, a tab for each level and one behind the colon. */
  lemma PrettyInner()
    ensures Text(INNER, 1, true) == Ascii("{\n\t\t\"a\":\t[]\n\t}")
  {
    FewTabs();
    InnerParts(true);
    hide Text, Tabs;
  }

  lemma PrettyNested()
    ensures Text(Object([Field([98], INNER)]), 0, true) == Ascii("{\n\t\"b\":\t") + Text(INNER, 1, true) + Ascii("\n}")
  {
    FewTabs();
    OuterParts(true);
    hide Text, Tabs;
  }

  lemma PlainNested()
    ensures Text(INNER, 1, false) == Ascii("{\"a\":[]}")
    ensures Text(Object([Field([98], INNER)]), 0, false) == Ascii("{\"b\":") + Text(INNER, 1, false) + Ascii("}")
  {
    InnerParts(false);
    OuterParts(false);
    hide Text, Tabs;
  }

  /** A comma stands behind every member but the last. */
  lemma PrettyMembers()
    ensures Text(Object([Field([97], Number(1)), Field([98], Number(2))]), 0, true)
            == Ascii("{\n\t\"a\":\t1,\n\t\"b\":\t2\n}")
  {
    FewTabs();
    PairParts(true);
    hide Text, Tabs;
  }

  lemma PlainMembers()
    ensures Text(Object([Field([97], Number(1)), Field([98], Number(2))]), 0, false) == Ascii("{\"a\":1,\"b\":2}")
  {
    PairParts(false);
    hide Text, Tabs;
  }
}

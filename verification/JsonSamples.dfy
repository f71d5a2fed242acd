/** Texts that the tests of json-c expect, flag by flag. */
module JsonSamples {
  import opened Bytes
  import opened OrderedMap
  import opened JsonValue
  import opened JsonSerializer

  const PLAIN: Flags := Flags(false, false, false, false)
  const SPACED: Flags := Flags(true, false, false, false)
  const PRETTY: Flags := Flags(false, true, false, false)
  const TABBED: Flags := Flags(false, true, true, false)

  // ----- building up a text

  lemma {:induction false} PlainStays(fl: Flags, s: seq<byte>)
    requires forall i :: 0 <= i < |s| ==> IsPlain(fl, s[i])
    ensures Escape(fl, s) == s
  {
    if s != [] {
      var n := |s| - 1;
      PlainStays(fl, s[..n]);
      assert s == s[..n] + [s[n]];
    }
  }

  lemma OneItem(fl: Flags, x: Value, level: nat)
    ensures ItemsText(fl, [x], level) == Before(fl, level) + Text(fl, x, level)
  {
    assert [x][..0] == [];
    hide Text, Before;
    assert ItemsText(fl, [], level) + [] + Before(fl, level) == Before(fl, level);
  }

  lemma MoreItems(fl: Flags, xs: seq<Value>, x: Value, level: nat)
    requires xs != []
    ensures ItemsText(fl, xs + [x], level)
            == ItemsText(fl, xs, level) + ([44] + Open(fl)) + Before(fl, level) + Text(fl, x, level)
  {
    assert (xs + [x])[..|xs|] == xs;
    hide Text, Before;
  }

  lemma OneField(fl: Flags, f: Pair<Key, Value>, level: nat)
    ensures FieldsText(fl, [f], level) == Before(fl, level) + FieldText(fl, f, level)
  {
    assert [f][..0] == [];
    hide FieldText, Before;
    assert FieldsText(fl, [], level) + [] + Before(fl, level) == Before(fl, level);
  }

  lemma MoreFields(fl: Flags, fs: seq<Pair<Key, Value>>, f: Pair<Key, Value>, level: nat)
    requires fs != []
    ensures FieldsText(fl, fs + [f], level)
            == FieldsText(fl, fs, level) + ([44] + Open(fl)) + Before(fl, level) + FieldText(fl, f, level)
  {
    assert (fs + [f])[..|fs|] == fs;
    hide FieldText, Before;
  }

  // ----- the samples

  /** The bytes that need no escape are written as they are, and no others. */
  lemma BytesStay(fl: Flags, b: byte)
    ensures Escape(fl, [b]) == [b] <==> b >= 32 && b != 34 && b != 92 && (b == 47 ==> fl.noSlashEscape)
  {
    assert [b][..0] == [] && Escape(fl, [b]) == Escape(fl, []) + EscapeByte(fl, b);
  }

  /** A slash is escaped, unless a flag says otherwise. */
  lemma Slashes()
    ensures Quoted(PLAIN, [47]) == Ascii("\"\\/\"")
    ensures Quoted(PLAIN.(noSlashEscape := true), [47]) == Ascii("\"/\"")
  {
    assert [47][..0] == [];
  }

  lemma Digit(fl: Flags, d: nat, level: nat)
    requires d < 10
    ensures Text(fl, Int(d), level) == [48 + d]
  {
  }

  lemma ArrayText(fl: Flags)
    ensures Text(fl, Arr([Int(1), Null, Int(5)]), 0)
            == [91] + Open(fl)
               + (Before(fl, 1) + [49] + ([44] + Open(fl)) + Before(fl, 1) + [110, 117, 108, 108]
                  + ([44] + Open(fl)) + Before(fl, 1) + [53])
               + Closing(fl, 0, true) + [93]
  {
    ThreeItems(fl, Int(1), Null, Int(5));
    Digit(fl, 1, 1);
    Digit(fl, 5, 1);
    hide ItemsText, Before, Open, Closing;
  }

  /** An array without flags. */
  lemma PlainArray()
    ensures Text(PLAIN, Arr([Int(1), Null, Int(5)]), 0) == Ascii("[1,null,5]")
  {
    ArrayText(PLAIN);
    hide Text;
  }

  lemma SpacedArray()
    ensures Text(SPACED, Arr([Int(1), Null, Int(5)]), 0) == Ascii("[ 1, null, 5 ]")
  {
    ArrayText(SPACED);
    hide Text;
  }

  lemma PrettyArray()
    ensures Text(PRETTY, Arr([Int(1), Null, Int(5)]), 0) == Ascii("[\n  1,\n  null,\n  5\n]")
  {
    ArrayText(PRETTY);
    hide Text;
    assert Before(PRETTY, 1) == [32, 32] && Closing(PRETTY, 0, true) == [10] && Open(PRETTY) == [10];
  }

  lemma ThreeItems(fl: Flags, x: Value, y: Value, z: Value)
    ensures ItemsText(fl, [x, y, z], 1)
            == Before(fl, 1) + Text(fl, x, 1) + ([44] + Open(fl)) + Before(fl, 1) + Text(fl, y, 1)
               + ([44] + Open(fl)) + Before(fl, 1) + Text(fl, z, 1)
  {
    OneItem(fl, x, 1);
    MoreItems(fl, [x], y, 1);
    MoreItems(fl, [x, y], z, 1);
    assert [x] + [y] == [x, y] && [x, y] + [z] == [x, y, z];
    hide Text, Before, Open, ItemsText;
  }

  lemma Empty(level: nat)
    ensures Text(SPACED, Arr([]), level) == Ascii("[ ]") && Text(SPACED, Obj([]), level) == Ascii("{ }")
    ensures Text(PLAIN, Arr([]), level) == Ascii("[]") && Text(PLAIN, Obj([]), level) == Ascii("{}")
  {
  }

  lemma Inner(fl: Flags)
    ensures Text(fl, Arr([Arr([Int(1)])]), 0)
            == [91] + Open(fl) + (Before(fl, 1) + ([91] + Open(fl) + (Before(fl, 2) + [49]) + Closing(fl, 1, true) + [93]))
               + Closing(fl, 0, true) + [93]
  {
    OneItem(fl, Arr([Int(1)]), 1);
    OneItem(fl, Int(1), 2);
    Digit(fl, 1, 2);
    hide ItemsText, Before, Open, Closing;
  }

  /** An array in an array: every level is indented further. */
  lemma PrettyNested()
    ensures Text(PRETTY, Arr([Arr([Int(1)])]), 0) == Ascii("[\n  [\n    1\n  ]\n]")
  {
    Inner(PRETTY);
    hide Text;
    assert Before(PRETTY, 1) == [32, 32] && Before(PRETTY, 2) == [32, 32, 32, 32] && Open(PRETTY) == [10];
    assert Closing(PRETTY, 0, true) == [10] && Closing(PRETTY, 1, true) == [10, 32, 32];
    hide Before, Open, Closing;
  }

  lemma TabbedNested()
    ensures Text(TABBED, Arr([Arr([Int(1)])]), 0) == Ascii("[\n\t[\n\t\t1\n\t]\n]")
  {
    Inner(TABBED);
    hide Text;
    assert Before(TABBED, 1) == [9] && Before(TABBED, 2) == [9, 9] && Open(TABBED) == [10];
    assert Closing(TABBED, 0, true) == [10] && Closing(TABBED, 1, true) == [10, 9];
    hide Before, Open, Closing;
  }

  lemma Member(fl: Flags)
    ensures Text(fl, Obj([Pair([97], Bool(true))]), 0)
            == [123] + Open(fl) + (Before(fl, 1) + ([34, 97, 34] + [58] + When(fl.spaced, [SPACE]) + [116, 114, 117, 101]))
               + Closing(fl, 0, true) + [125]
  {
    OneField(fl, Pair([97], Bool(true)), 1);
    MemberText(fl);
    hide FieldsText, FieldText, Before, Open, Closing, When;
  }

  lemma MemberText(fl: Flags)
    ensures FieldText(fl, Pair([97], Bool(true)), 1) == [34, 97, 34] + [58] + When(fl.spaced, [SPACE]) + [116, 114, 117, 101]
  {
    PlainStays(fl, [97]);
    hide Escape, When;
  }

  /** A member of an object. */
  lemma PlainMember()
    ensures Text(PLAIN, Obj([Pair([97], Bool(true))]), 0) == Ascii("{\"a\":true}")
  {
    Member(PLAIN);
    hide Text;
  }

  lemma SpacedMember()
    ensures Text(SPACED, Obj([Pair([97], Bool(true))]), 0) == Ascii("{ \"a\": true }")
  {
    Member(SPACED);
    hide Text;
  }

  lemma PrettyMember()
    ensures Text(PRETTY, Obj([Pair([97], Bool(true))]), 0) == Ascii("{\n  \"a\":true\n}")
  {
    Member(PRETTY);
    hide Text;
    assert Before(PRETTY, 1) == [32, 32] && Closing(PRETTY, 0, true) == [10] && Open(PRETTY) == [10];
    hide Before, Open, Closing;
  }
}

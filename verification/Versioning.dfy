/** Dependency strings: a plugin name followed by an optional version range. */
module Versioning {

  datatype Option<+T> = None | Some(value: T)

  /** The packaging library: which range texts it accepts, which versions a range
      contains, and how it shows a range. An unparseable version is in no range. */
  datatype Packaging = Packaging(validRange: string -> bool, contains: (string, string) -> bool, shown: string -> string)

  /** A parsed dependency; an empty range means any version. */
  datatype Requirement = Requirement(name: string, range: string)
  {
    predicate SatisfiedBy(pk: Packaging, version: string)
    {
      range == "" || pk.contains(range, version)
    }
  }

  /** What Python's `strip` removes. */
  predicate IsSpace(c: char)
  {
    || '\U{09}' <= c <= '\U{0D}' || '\U{1C}' <= c <= '\U{20}'
    || c == '\U{85}' || c == '\U{A0}' || c == '\U{1680}' || '\U{2000}' <= c <= '\U{200A}'
    || c == '\U{2028}' || c == '\U{2029}' || c == '\U{202F}' || c == '\U{205F}' || c == '\U{3000}'
  }

  predicate IsOperator(c: char)
  {
    c in "<>=!~"
  }

  function StripLeft(s: string): (r: string)
    ensures |r| <= |s|
  {
    if s != [] && IsSpace(s[0]) then StripLeft(s[1..]) else s
  }

  function StripRight(s: string): (r: string)
    ensures |r| <= |s|
  {
    if s != [] && IsSpace(s[|s| - 1]) then StripRight(s[..|s| - 1]) else s
  }

  function Strip(s: string): string
  {
    StripRight(StripLeft(s))
  }

  /** The number of leading characters that are no range operator. */
  function NameLength(s: string): (k: nat)
    ensures k <= |s|
    ensures forall i :: 0 <= i < k ==> !IsOperator(s[i])
    ensures k < |s| ==> IsOperator(s[k])
  {
    if s == [] || IsOperator(s[0]) then 0 else 1 + NameLength(s[1..])
  }

  /** The specification of `parse_dependency`; None stands for its ValueError. */
  function Parse(pk: Packaging, raw: string): Option<Requirement>
  {
    var text := Strip(raw);
    if text == "" then None
    else
      var k := NameLength(text);
      var name := if k == |text| then text else Strip(text[..k]);
      var range := if k == |text| then "" else Strip(text[k..]);
      if name == "" || !pk.validRange(range) then None
      else Some(Requirement(name, range))
  }

  method ParseDependency(pk: Packaging, raw: string) returns (r: Option<Requirement>)
    ensures r == Parse(pk, raw)
  {
    var text := Strip(raw);
    if text == "" {
      return None;
    }
    var splitIndex: Option<nat> := None;
    var index := 0;
    while index < |text|
      invariant 0 <= index <= |text|
      invariant splitIndex == None
      invariant forall i :: 0 <= i < index ==> !IsOperator(text[i])
    {
      if IsOperator(text[index]) {
        splitIndex := Some(index);
        break;
      }
      index := index + 1;
    }
    var k := NameLength(text);
    assert index < |text| ==> IsOperator(text[index]);
    assert index == k;
    var name, range;
    if splitIndex == None {
      name, range := text, "";
    } else {
      name, range := Strip(text[..splitIndex.value]), Strip(text[splitIndex.value..]);
    }
    if name == "" || !pk.validRange(range) {
      return None;
    }
    return Some(Requirement(name, range));
  }

  // ---- What parsing means -----------------------------------------------------

  predicate Trimmed(s: string)
  {
    s == [] || (!IsSpace(s[0]) && !IsSpace(s[|s| - 1]))
  }

  predicate Blank(s: string)
  {
    forall i :: 0 <= i < |s| ==> IsSpace(s[i])
  }

  lemma {:induction false} StripLeftPads(pad: string, s: string)
    requires Blank(pad) && (s == [] || !IsSpace(s[0]))
    ensures StripLeft(pad + s) == s
  {
    if pad == [] {
      assert pad + s == s;
    } else {
      assert (pad + s)[1..] == pad[1..] + s;
      StripLeftPads(pad[1..], s);
    }
  }

  lemma {:induction false} StripRightPads(s: string, pad: string)
    requires Blank(pad) && (s == [] || !IsSpace(s[|s| - 1]))
    ensures StripRight(s + pad) == s
  {
    if pad == [] {
      assert s + pad == s;
    } else {
      assert (s + pad)[..|s + pad| - 1] == s + pad[..|pad| - 1];
      StripRightPads(s, pad[..|pad| - 1]);
    }
  }

  /** Stripping removes exactly the white space around a trimmed text. */
  lemma StripPads(left: string, s: string, right: string)
    requires Blank(left) && Blank(right) && Trimmed(s)
    ensures Strip(left + s + right) == s
  {
    if s == [] {
      assert left + s + right == (left + right) + [];
      StripLeftPads(left + right, []);
    } else {
      assert left + s + right == left + (s + right);
      StripLeftPads(left, s + right);
      StripRightPads(s, right);
    }
  }

  lemma {:induction false} NameLengthOf(name: string, rest: string)
    requires forall i :: 0 <= i < |name| ==> !IsOperator(name[i])
    requires rest == [] || IsOperator(rest[0])
    ensures NameLength(name + rest) == |name|
  {
    if name == [] {
      assert name + rest == rest;
    } else {
      assert (name + rest)[1..] == name[1..] + rest;
      NameLengthOf(name[1..], rest);
    }
  }

  predicate PlainName(name: string)
  {
    name != [] && Trimmed(name) && forall i :: 0 <= i < |name| ==> !IsOperator(name[i])
  }

  /** Round trip: a plain name and a valid range, written with any white space
      before, between and after them, parse back to that name and range. */
  lemma ParseRoundTrip(pk: Packaging, name: string, range: string, left: string, gap: string, right: string)
    requires PlainName(name) && Trimmed(range) && Blank(left) && Blank(gap) && Blank(right)
    requires range != "" ==> IsOperator(range[0])
    requires range == "" ==> gap == ""
    requires pk.validRange(range)
    ensures Parse(pk, left + (name + gap + range) + right) == Some(Requirement(name, range))
  {
    if range == "" {
      BareNameParses(pk, name, left, right);
      assert name + gap + range == name;
    } else {
      RangedNameParses(pk, name, range, left, gap, right);
    }
  }

  lemma BareNameParses(pk: Packaging, name: string, left: string, right: string)
    requires PlainName(name) && Blank(left) && Blank(right) && pk.validRange("")
    ensures Parse(pk, left + name + right) == Some(Requirement(name, ""))
  {
    StripPads(left, name, right);
    NameLengthOf(name, []);
    assert name + [] == name;
  }

  /** Where the name, with the white space after it, ends. */
  lemma NameEndsAtRange(name: string, gap: string, range: string)
    requires PlainName(name) && Blank(gap) && range != "" && IsOperator(range[0])
    ensures NameLength(name + gap + range) == |name + gap|
  {
    forall i | 0 <= i < |name + gap| ensures !IsOperator((name + gap)[i]) {
      if i >= |name| { assert IsSpace(gap[i - |name|]); }
    }
    NameLengthOf(name + gap, range);
  }

  lemma StripPlain(s: string, right: string)
    requires Trimmed(s) && Blank(right)
    ensures Strip(s + right) == s
  {
    StripPads("", s, right);
    assert "" + s + right == s + right;
  }

  lemma NameToRangeIsTrimmed(name: string, gap: string, range: string)
    requires PlainName(name) && Trimmed(range) && range != ""
    ensures Trimmed(name + gap + range)
  {
    var text := name + gap + range;
    assert text[0] == name[0];
    assert text[|text| - 1] == range[|range| - 1];
  }

  lemma RangedNameParses(pk: Packaging, name: string, range: string, left: string, gap: string, right: string)
    requires PlainName(name) && Trimmed(range) && Blank(left) && Blank(gap) && Blank(right)
    requires range != "" && IsOperator(range[0]) && pk.validRange(range)
    ensures Parse(pk, left + (name + gap + range) + right) == Some(Requirement(name, range))
  {
    var text, k := name + gap + range, |name + gap|;
    NameToRangeIsTrimmed(name, gap, range);
    StripPads(left, text, right);
    NameEndsAtRange(name, gap, range);
    assert text[..k] == name + gap && text[k..] == range;
    StripPlain(name, gap);
    StripPlain(range, "");
    assert range + "" == range;
  }

  // ---- Every string ---------------------------------------------------------------

  lemma {:induction false} StripLeftSplits(s: string) returns (pad: string)
    ensures Blank(pad) && s == pad + StripLeft(s)
    ensures StripLeft(s) == [] || !IsSpace(StripLeft(s)[0])
  {
    if s != [] && IsSpace(s[0]) {
      pad := StripLeftSplits(s[1..]);
      assert s == [s[0]] + s[1..];
      pad := [s[0]] + pad;
    } else {
      pad := [];
    }
  }

  lemma {:induction false} StripRightSplits(s: string) returns (pad: string)
    ensures Blank(pad) && s == StripRight(s) + pad
    ensures StripRight(s) == [] || !IsSpace(StripRight(s)[|StripRight(s)| - 1])
  {
    if s != [] && IsSpace(s[|s| - 1]) {
      pad := StripRightSplits(s[..|s| - 1]);
      assert s == s[..|s| - 1] + [s[|s| - 1]];
      pad := pad + [s[|s| - 1]];
    } else {
      pad := [];
    }
  }

  /** Every string is a trimmed text with white space around it, which stripping takes off. */
  lemma StripSplits(raw: string) returns (left: string, right: string)
    ensures Blank(left) && Blank(right) && Trimmed(Strip(raw)) && raw == left + Strip(raw) + right
  {
    left := StripLeftSplits(raw);
    right := StripRightSplits(StripLeft(raw));
    if Strip(raw) != [] { assert Strip(raw)[0] == StripLeft(raw)[0]; }
  }

  /** Parsing any string. Let `text` be what is left of it without the white space around
      it, and `k` the place of the first operator character in it, or its length. It is
      refused exactly when the text is empty, begins with an operator or has an invalid
      range; else the range is the text from `k` on, and the name is what stands before,
      without the white space that ends it. */
  lemma ParseMeaning(pk: Packaging, left: string, text: string, right: string, k: nat)
    requires Blank(left) && Blank(right) && Trimmed(text) && k <= |text|
    requires (forall i :: 0 <= i < k ==> !IsOperator(text[i])) && (k < |text| ==> IsOperator(text[k]))
    ensures var r := Parse(pk, left + text + right);
      && (r == None <==> text == "" || k == 0 || !pk.validRange(text[k..]))
      && (r.Some? ==>
            && r.value.range == text[k..] && r.value.name != "" && Trimmed(r.value.name)
            && exists gap :: Blank(gap) && text[..k] == r.value.name + gap)
  {
    StripPads(left, text, right);
    if text != "" { ParseSplits(pk, left + text + right, text, k); }
    if 0 < k { NameBefore(text, k); }
  }

  /** The two branches of the split in one. */
  lemma ParseSplits(pk: Packaging, raw: string, text: string, k: nat)
    requires Strip(raw) == text && text != "" && Trimmed(text) && k <= |text|
    requires (forall i :: 0 <= i < k ==> !IsOperator(text[i])) && (k < |text| ==> IsOperator(text[k]))
    ensures Parse(pk, raw) ==
      if k == 0 || !pk.validRange(text[k..]) then None else Some(Requirement(Strip(text[..k]), text[k..]))
  {
    assert text == text[..k] + text[k..];
    NameLengthOf(text[..k], text[k..]);
    if 0 < k { NameBefore(text, k); }
    if k < |text| { TailIsTrimmed(text, k); }
  }

  lemma NameBefore(text: string, k: nat)
    requires Trimmed(text) && 0 < k <= |text|
    ensures Strip(text[..k]) != "" && Trimmed(Strip(text[..k]))
    ensures exists gap :: Blank(gap) && text[..k] == Strip(text[..k]) + gap
    ensures k == |text| ==> Strip(text[..k]) == text && text[k..] == ""
  {
    var l, gap := StripSplits(text[..k]);
    NoPadBefore(l, Strip(text[..k]), gap, text[..k]);
    if k == |text| {
      assert text[..k] == text;
      StripPads("", text, "");
      assert "" + text + "" == text;
    }
  }

  lemma BlankHead(pad: string, rest: string)
    requires pad != "" && Blank(pad)
    ensures IsSpace((pad + rest)[0])
  {
  }

  /** White space in front of a text that begins without any is none. */
  lemma NoPadBefore(pad: string, s: string, gap: string, whole: string)
    requires Blank(pad) && Blank(gap) && whole == pad + s + gap && whole != "" && !IsSpace(whole[0])
    ensures pad == "" && s != "" && whole == s + gap
  {
    assert whole == pad + (s + gap);
    if pad != "" { BlankHead(pad, s + gap); }
    assert pad == "" ==> whole == s + gap;
    assert pad == "" && s == "" ==> whole == gap;
  }

  lemma TailIsTrimmed(text: string, k: nat)
    requires Trimmed(text) && k < |text| && IsOperator(text[k])
    ensures Strip(text[k..]) == text[k..]
  {
    assert text[k..][|text[k..]| - 1] == text[|text| - 1];
    StripPads("", text[k..], "");
    assert "" + text[k..] + "" == text[k..];
  }

  /** Each of the five characters that PEP 440's specifier operators begin with ends the name. */
  lemma OperatorsEndTheName(pk: Packaging, name: string, c: char, rest: string)
    requires c == '<' || c == '>' || c == '=' || c == '!' || c == '~'
    requires PlainName(name) && Trimmed([c] + rest) && pk.validRange([c] + rest)
    ensures Parse(pk, name + ([c] + rest)) == Some(Requirement(name, [c] + rest))
  {
    var range := [c] + rest;
    RangedNameParses(pk, name, range, "", "", "");
    assert "" + (name + "" + range) + "" == name + range;
  }

  /** Only five characters do: a string without them is all name, white space inside included. */
  lemma OtherCharactersAreName(pk: Packaging, name: string)
    requires name != "" && Trimmed(name) && pk.validRange("")
    requires forall i :: 0 <= i < |name| ==> name[i] !in {'<', '>', '=', '!', '~'}
    ensures Parse(pk, name) == Some(Requirement(name, ""))
  {
    ParseRoundTrip(pk, name, "", "", "", "");
    assert "" + (name + "" + "") + "" == name;
  }

  /** The characters taken for white space, by code point. */
  lemma SpacesByCodePoint(c: char)
    ensures IsSpace(c) <==>
      c as int in {0x20, 0x85, 0xA0, 0x1680, 0x2028, 0x2029, 0x202F, 0x205F, 0x3000}
      || c as int in {9, 10, 11, 12, 13, 28, 29, 30, 31} || 0x2000 <= c as int <= 0x200A
  {
  }
}

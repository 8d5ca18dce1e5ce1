/** Decoding of service, short-event and extended-event descriptors (ETSI EN 300
    468, sections 6.2.33, 6.2.37 and 6.2.15). String conversion is a parameter. */
module Descriptors {
  import opened Bytes

  type Text = seq<char>
  type Converter = seq<Byte> -> Text

  /** An empty string gives no text at all. */
  function Convert(conv: Converter, s: seq<Byte>): Option<Text> {
    if s == [] then None else Some(conv(s))
  }

  datatype ServiceDescriptor = ServiceDescriptor(kind: Byte, provider: Option<Text>, name: Option<Text>)
  datatype ShortDescriptor = ShortDescriptor(language: seq<Byte>, description: Option<Text>, text: Option<Text>)
  datatype Item = Item(description: Option<Text>, content: Option<Text>)
  datatype ExtendedDescriptor = ExtendedDescriptor(number: nat, last: nat, language: seq<Byte>, items: seq<Item>,
      text: Option<Text>)

  /** A length byte at o and that many bytes behind it all lie in the data. */
  predicate HasString(data: seq<Byte>, o: nat) {
    o < |data| && o + 1 + data[o] as int <= |data|
  }

  /** Where the string at o ends. */
  function Next(data: seq<Byte>, o: nat): nat
    requires HasString(data, o)
  {
    o + 1 + data[o] as int
  }

  function StringAt(data: seq<Byte>, o: nat): seq<Byte>
    requires HasString(data, o)
  {
    data[o + 1..Next(data, o)]
  }

  /** An item at p: two strings, one behind the other. */
  predicate HasItem(data: seq<Byte>, p: nat) { HasString(data, p) && HasString(data, Next(data, p)) }

  function AfterItem(data: seq<Byte>, p: nat): nat
    requires HasItem(data, p)
  {
    Next(data, Next(data, p))
  }

  function ItemAt(conv: Converter, data: seq<Byte>, p: nat): Item
    requires HasItem(data, p)
  {
    Item(Convert(conv, StringAt(data, p)), Convert(conv, StringAt(data, Next(data, p))))
  }

  /** The items from p up to end; nothing when a read would leave the data (the
      code does not check that). */
  function ItemsAt(conv: Converter, data: seq<Byte>, p: nat, end: nat): Option<seq<Item>>
    decreases end - p
  {
    if p >= end then Some([])
    else if !HasItem(data, p) then None
    else
      match ItemsAt(conv, data, AfterItem(data, p), end)
      case None => None
      case Some(more) => Some([ItemAt(conv, data, p)] + more)
  }

  function ExtendedIn(conv: Converter, data: seq<Byte>): Option<ExtendedDescriptor> {
    if |data| < 5 then None
    else
      var end := 5 + data[4] as int;
      match ItemsAt(conv, data, 5, end)
      case None => None
      case Some(items) =>
        if !HasString(data, end) then None
        else Some(ExtendedDescriptor(data[0] / 16, data[0] % 16, data[1..4], items, Convert(conv, StringAt(data, end))))
  }

  function ServiceIn(conv: Converter, data: seq<Byte>): Option<ServiceDescriptor> {
    if |data| == 0 || !HasString(data, 1) || !HasString(data, Next(data, 1)) then None
    else Some(ServiceDescriptor(data[0], Convert(conv, StringAt(data, 1)),
        Convert(conv, StringAt(data, Next(data, 1)))))
  }

  function ShortIn(conv: Converter, data: seq<Byte>): Option<ShortDescriptor> {
    if |data| < 3 || !HasString(data, 3) || !HasString(data, Next(data, 3)) then None
    else Some(ShortDescriptor(data[..3], Convert(conv, StringAt(data, 3)),
        Convert(conv, StringAt(data, Next(data, 3)))))
  }

  // ------------------------------------------------------------------
  // Decoders; ok is false where the code would read beyond the data
  // ------------------------------------------------------------------

  method ReadString(conv: Converter, data: array<Byte>, o: nat) returns (ok: bool, t: Option<Text>, next: nat)
    ensures ok <==> HasString(data[..], o)
    ensures ok ==> t == Convert(conv, StringAt(data[..], o)) && next == Next(data[..], o) && o < next <= data.Length
  {
    ok, t, next := false, None, 0;
    if o < data.Length && o + 1 + data[o] as int <= data.Length {
      var l := data[o] as int;
      t := if l == 0 then None else Some(conv(data[o + 1..o + 1 + l]));
      assert data[o + 1..o + 1 + l] == StringAt(data[..], o);
      return true, t, o + 1 + l;
    }
  }

  method DecodeService(conv: Converter, data: array<Byte>) returns (ok: bool, d: ServiceDescriptor)
    ensures (if ok then Some(d) else None) == ServiceIn(conv, data[..])
  {
    d := ServiceDescriptor(0, None, None);
    if data.Length == 0 {
      return false, d;
    }
    var next, provider, name;
    d := d.(kind := data[0]);
    ok, provider, next := ReadString(conv, data, 1);
    if ok {
      d := d.(provider := provider);
      ok, name, next := ReadString(conv, data, next);
      d := d.(name := name);
    }
  }

  method DecodeShortEvent(conv: Converter, data: array<Byte>) returns (ok: bool, d: ShortDescriptor)
    ensures (if ok then Some(d) else None) == ShortIn(conv, data[..])
  {
    d := ShortDescriptor([], None, None);
    if data.Length < 3 {
      return false, d;
    }
    var next, description, text;
    d := d.(language := data[..3]);
    ok, description, next := ReadString(conv, data, 3);
    if ok {
      d := d.(description := description);
      ok, text, next := ReadString(conv, data, next);
      d := d.(text := text);
    }
    assert data[..][..3] == data[..3];
  }

  method ReadItem(conv: Converter, data: array<Byte>, p: nat) returns (ok: bool, item: Item, next: nat)
    ensures ok <==> HasItem(data[..], p)
    ensures ok ==> item == ItemAt(conv, data[..], p) && next == AfterItem(data[..], p) && next > p
  {
    var description, content, q;
    item, next := Item(None, None), p;
    ok, description, q := ReadString(conv, data, p);
    if ok {
      ok, content, next := ReadString(conv, data, q);
      item := Item(description, content);
    }
  }

  /** The items read so far and those to come make up all of them. */
  ghost predicate Split(all: Option<seq<Item>>, items: seq<Item>, rest: Option<seq<Item>>) {
    if rest.Some? then all == Some(items + rest.value) else all.None?
  }

  lemma {:induction false} SplitFurther(all: Option<seq<Item>>, items: seq<Item>, item: Item, more: Option<seq<Item>>)
    requires Split(all, items, if more.Some? then Some([item] + more.value) else None)
    ensures Split(all, items + [item], more)
  {
    if more.Some? {
      assert items + ([item] + more.value) == items + [item] + more.value;
    }
  }

  /** The item loop. */
  method ReadItems(conv: Converter, data: array<Byte>, end: nat) returns (ok: bool, items: seq<Item>)
    requires 5 <= data.Length
    ensures (if ok then Some(items) else None) == ItemsAt(conv, data[..], 5, end)
  {
    var p := 5;
    ghost var b := data[..];
    ghost var all := ItemsAt(conv, b, 5, end);
    ghost var rest := all;
    items := [];
    assert all.Some? ==> [] + all.value == all.value;
    while p < end
      invariant 5 <= p && rest == ItemsAt(conv, b, p, end) && Split(all, items, rest)
      decreases end - p
    {
      var item, next;
      ok, item, next := ReadItem(conv, data, p);
      if !ok {
        return;
      }
      rest := ItemsAt(conv, b, next, end);
      SplitFurther(all, items, item, rest);
      items := items + [item];
      p := next;
    }
    assert items + [] == items;
    ok := true;
  }

  method DecodeExtendedEvent(conv: Converter, data: array<Byte>) returns (ok: bool, d: ExtendedDescriptor)
    ensures (if ok then Some(d) else None) == ExtendedIn(conv, data[..])
  {
    d := ExtendedDescriptor(0, 0, [], [], None);
    if data.Length < 5 {
      return false, d;
    }
    d := d.(number := data[0] / 16, last := data[0] % 16, language := data[1..4]);
    assert data[..][1..4] == data[1..4];
    var end := 5 + data[4] as int;
    var items, text, next;
    ok, items := ReadItems(conv, data, end);
    if ok {
      d := d.(items := items);
      ok, text, next := ReadString(conv, data, end);
      d := d.(text := text);
    }
  }

  // ------------------------------------------------------------------
  // Dispatch on the tag
  // ------------------------------------------------------------------

  const TAG_SERVICE: Byte := 0x48
  const TAG_SHORT_EVENT: Byte := 0x4d
  const TAG_EXTENDED_EVENT: Byte := 0x4e

  datatype RawDescriptor = RawDescriptor(tag: Byte, data: seq<Byte>)

  datatype Descriptor = Service(service: ServiceDescriptor) | Short(short: ShortDescriptor)
      | Extended(extended: ExtendedDescriptor) | Unknown

  /** All reads of the decoder stay inside the data. */
  predicate InBounds(conv: Converter, raw: RawDescriptor) {
    && (raw.tag == TAG_SERVICE ==> ServiceIn(conv, raw.data).Some?)
    && (raw.tag == TAG_SHORT_EVENT ==> ShortIn(conv, raw.data).Some?)
    && (raw.tag == TAG_EXTENDED_EVENT ==> ExtendedIn(conv, raw.data).Some?)
  }

  function Decode(conv: Converter, raw: RawDescriptor): Descriptor
    requires InBounds(conv, raw)
  {
    if raw.tag == TAG_SERVICE then Service(ServiceIn(conv, raw.data).value)
    else if raw.tag == TAG_SHORT_EVENT then Short(ShortIn(conv, raw.data).value)
    else if raw.tag == TAG_EXTENDED_EVENT then Extended(ExtendedIn(conv, raw.data).value)
    else Unknown
  }

  // ------------------------------------------------------------------
  // Encoding, and the way back
  // ------------------------------------------------------------------

  type ShortString = s: seq<Byte> | |s| < 0x100

  function Lengthened(s: ShortString): seq<Byte> { [|s|] + s }

  datatype RawItem = RawItem(description: ShortString, content: ShortString)

  function EncodeItems(items: seq<RawItem>): seq<Byte> {
    if items == [] then []
    else EncodeItem(items[0]) + EncodeItems(items[1..])
  }

  function Items(conv: Converter, items: seq<RawItem>): seq<Item> {
    seq(|items|, i requires 0 <= i < |items| =>
      Item(Convert(conv, items[i].description), Convert(conv, items[i].content)))
  }

  /** An encoded string at p is read back, and what follows it comes next. */
  lemma {:induction false} StringRead(data: seq<Byte>, p: nat, s: ShortString, after: seq<Byte>)
    requires p <= |data| && data[p..] == Lengthened(s) + after
    ensures HasString(data, p) && StringAt(data, p) == s && Next(data, p) == p + 1 + |s|
    ensures data[Next(data, p)..] == after
  {
    var tail := data[p..];
    assert data[p] == tail[0] == |s|;
    assert data[p + 1..p + 1 + |s|] == tail[1..1 + |s|] == s;
    assert data[p + 1 + |s|..] == tail[1 + |s|..] == after;
  }

  lemma {:induction false} ServiceRoundTrip(conv: Converter, kind: Byte, provider: ShortString, name: ShortString)
    ensures ServiceIn(conv, [kind] + (Lengthened(provider) + Lengthened(name)))
            == Some(ServiceDescriptor(kind, if provider == [] then None else Some(conv(provider)),
                                      if name == [] then None else Some(conv(name))))
  {
    var data := [kind] + (Lengthened(provider) + Lengthened(name));
    assert Lengthened(name) + [] == Lengthened(name);
    StringRead(data, 1, provider, Lengthened(name));
    StringRead(data, Next(data, 1), name, []);
  }

  lemma {:induction false} ShortRoundTrip(conv: Converter, language: seq<Byte>, description: ShortString,
      text: ShortString)
    requires |language| == 3
    ensures ShortIn(conv, language + (Lengthened(description) + Lengthened(text)))
            == Some(ShortDescriptor(language, if description == [] then None else Some(conv(description)),
                                    if text == [] then None else Some(conv(text))))
  {
    var data := language + (Lengthened(description) + Lengthened(text));
    assert Lengthened(text) + [] == Lengthened(text);
    StringRead(data, 3, description, Lengthened(text));
    StringRead(data, Next(data, 3), text, []);
    assert data[..3] == language;
  }

  function EncodeItem(i: RawItem): seq<Byte> { Lengthened(i.description) + Lengthened(i.content) }

  lemma {:induction false} ItemRead(conv: Converter, data: seq<Byte>, p: nat, i: RawItem, after: seq<Byte>)
    requires p <= |data| && data[p..] == EncodeItem(i) + after
    ensures HasItem(data, p) && ItemAt(conv, data, p) == Item(Convert(conv, i.description), Convert(conv, i.content))
    ensures AfterItem(data, p) == p + |EncodeItem(i)| && data[AfterItem(data, p)..] == after
  {
    assert EncodeItem(i) + after == Lengthened(i.description) + (Lengthened(i.content) + after);
    StringRead(data, p, i.description, Lengthened(i.content) + after);
    StringRead(data, Next(data, p), i.content, after);
  }

  lemma {:induction false} ItemsAtCons(conv: Converter, data: seq<Byte>, p: nat, end: nat, more: seq<Item>)
    requires p < end && HasItem(data, p) && ItemsAt(conv, data, AfterItem(data, p), end) == Some(more)
    ensures ItemsAt(conv, data, p, end) == Some([ItemAt(conv, data, p)] + more)
  {
  }

  lemma {:induction false} ItemsCons(conv: Converter, items: seq<RawItem>)
    requires items != []
    ensures var i := items[0];
            Items(conv, items) == [Item(Convert(conv, i.description), Convert(conv, i.content))]
                + Items(conv, items[1..])
  {
  }

  /** On well-formed data the item loop stops exactly at the end of the items. */
  lemma {:induction false} ItemsRead(conv: Converter, data: seq<Byte>, p: nat, items: seq<RawItem>, after: seq<Byte>)
    requires p <= |data| && data[p..] == EncodeItems(items) + after
    ensures ItemsAt(conv, data, p, p + |EncodeItems(items)|) == Some(Items(conv, items))
    decreases |items|
  {
    if items == [] {
      assert Items(conv, items) == [];
    } else {
      var i, more := items[0], EncodeItems(items[1..]);
      assert EncodeItems(items) + after == EncodeItem(i) + (more + after);
      ItemRead(conv, data, p, i, more + after);
      var end := p + |EncodeItems(items)|;
      ItemsRead(conv, data, AfterItem(data, p), items[1..], after);
      assert AfterItem(data, p) + |more| == end;
      ItemsAtCons(conv, data, p, end, Items(conv, items[1..]));
      ItemsCons(conv, items);
    }
  }

  /** The five bytes in front of the items. */
  function Head(number: nat, last: nat, language: seq<Byte>, length: nat): seq<Byte>
    requires number < 16 && last < 16 && |language| == 3 && length < 0x100
  {
    [number * 16 + last, language[0], language[1], language[2], length]
  }

  function EncodeExtended(number: nat, last: nat, language: seq<Byte>, items: seq<RawItem>,
      text: ShortString): seq<Byte>
    requires number < 16 && last < 16 && |language| == 3 && |EncodeItems(items)| < 0x100
  {
    Head(number, last, language, |EncodeItems(items)|) + (EncodeItems(items) + Lengthened(text))
  }

  /** The five head bytes are read back. */
  lemma {:induction false} HeadRead(number: nat, last: nat, language: seq<Byte>, length: nat, rest: seq<Byte>)
    requires number < 16 && last < 16 && |language| == 3 && length < 0x100
    ensures var data := Head(number, last, language, length) + rest;
            data[0] / 16 == number && data[0] % 16 == last && data[1..4] == language && data[4] == length
                && data[5..] == rest
  {
  }

  lemma {:induction false} Behind(data: seq<Byte>, items: seq<Byte>, text: seq<Byte>)
    requires |data| >= 5 && data[5..] == items + text
    ensures 5 + |items| <= |data| && data[5 + |items|..] == text
  {
    assert data[5 + |items|..] == data[5..][|items|..];
  }

  lemma {:induction false} ExtendedOf(conv: Converter, data: seq<Byte>, end: nat, items: seq<Item>)
    requires |data| >= 5 && end == 5 + data[4] as int && ItemsAt(conv, data, 5, end) == Some(items)
             && HasString(data, end)
    ensures ExtendedIn(conv, data) ==
            Some(ExtendedDescriptor(data[0] / 16, data[0] % 16, data[1..4], items, Convert(conv, StringAt(data, end))))
  {
  }

  lemma {:induction false} ExtendedRoundTrip(conv: Converter, number: nat, last: nat, language: seq<Byte>,
      items: seq<RawItem>, text: ShortString)
    requires number < 16 && last < 16 && |language| == 3 && |EncodeItems(items)| < 0x100
    ensures ExtendedIn(conv, EncodeExtended(number, last, language, items, text))
            == Some(ExtendedDescriptor(number, last, language, Items(conv, items), Convert(conv, text)))
  {
    var e := EncodeItems(items);
    var data := EncodeExtended(number, last, language, items, text);
    HeadRead(number, last, language, |e|, e + Lengthened(text));
    ItemsRead(conv, data, 5, items, Lengthened(text));
    TextRead(data, e, text);
    ExtendedOf(conv, data, 5 + |e|, Items(conv, items));
  }

  lemma {:induction false} TextRead(data: seq<Byte>, e: seq<Byte>, text: ShortString)
    requires |data| >= 5 && data[5..] == e + Lengthened(text)
    ensures HasString(data, 5 + |e|) && StringAt(data, 5 + |e|) == text
  {
    Behind(data, e, Lengthened(text));
    assert Lengthened(text) + [] == Lengthened(text);
    StringRead(data, 5 + |e|, text, []);
  }
}

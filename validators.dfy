/** Server-side accept/reject checks for menu images, dish records and incoming orders. */
module Validators {
  import opened Wrappers
  import opened Bytes
  import opened Strings
  import opened Types

  /** Largest decoded image accepted: 5 MiB. */
  const MaxImageBytes: nat := 5 * 1024 * 1024

  /** Smallest decoded image accepted. */
  const MinImageBytes: nat := 8

  /** The alternatives of the data-URI pattern's capture group, in pattern order. */
  const ImageTypes: seq<string> := ["png", "jpeg", "jpg", "webp"]

  /** `MAGIC_BYTES`: the leading bytes of each image format, keyed by type name. */
  const MagicBytes: map<string, seq<Byte>> := map[
    "png" := [0x89, 0x50, 0x4E, 0x47],
    "jpeg" := [0xFF, 0xD8, 0xFF],
    "webp" := [0x52, 0x49, 0x46, 0x46]]

  function DataUriPrefix(t: string): string {
    "data:image/" + t + ";base64,"
  }

  /** `s.match(/^data:image\/(png|jpeg|jpg|webp);base64,/)`: the captured type, if any. */
  function MatchDataUri(s: string): (m: Option<string>)
    ensures m.Some? ==> m.value in ImageTypes && StartsWith(s, DataUriPrefix(m.value))
    ensures m.None? ==> forall t :: t in ImageTypes ==> !StartsWith(s, DataUriPrefix(t))
  {
    if StartsWith(s, DataUriPrefix("png")) then Some("png")
    else if StartsWith(s, DataUriPrefix("jpeg")) then Some("jpeg")
    else if StartsWith(s, DataUriPrefix("jpg")) then Some("jpg")
    else if StartsWith(s, DataUriPrefix("webp")) then Some("webp")
    else None
  }

  /** `buffer[i]` on a Node buffer: `undefined` past the end. */
  function ByteAt(buffer: seq<Byte>, i: nat): Option<Byte> {
    if i < |buffer| then Some(buffer[i]) else None
  }

  /** `matchesMagicBytes`: each expected byte equals the buffer's byte at that position;
      a position past the end of the buffer never matches. */
  predicate MatchesMagicBytes(buffer: seq<Byte>, expected: seq<Byte>) {
    forall i :: 0 <= i < |expected| ==> ByteAt(buffer, i) == Some(expected[i])
  }

  /** `validateMenuImage`, with base64 decoding (`Buffer.from(raw, 'base64')`) passed in. */
  function ValidateMenuImage(s: string, decode: string -> seq<Byte>): bool {
    if s == "" then false
    else
      match MatchDataUri(s)
      case None => false
      case Some(t) =>
        var parts := Split(s, ',');
        if |parts| < 2 || parts[1] == "" then false
        else
          var buffer := decode(parts[1]);
          if |buffer| > MaxImageBytes then false
          else if |buffer| < MinImageBytes then false
          else
            var declared := if t == "jpg" then "jpeg" else t;
            if declared !in MagicBytes then false
            else MatchesMagicBytes(buffer, MagicBytes[declared])
  }

  // ---- An independent statement of which images are accepted ----

  /** `s` begins with the data-URI prefix for image type `t`. */
  ghost predicate Declares(s: string, t: string) {
    t in ImageTypes && StartsWith(s, DataUriPrefix(t))
  }

  /** The file signature required for a declared type; `jpg` files are JPEG files. */
  function Signature(t: string): seq<Byte> {
    if t == "png" then [0x89, 0x50, 0x4E, 0x47]
    else if t == "webp" then [0x52, 0x49, 0x46, 0x46]
    else [0xFF, 0xD8, 0xFF]
  }

  /** The base64 text after the prefix, up to the next comma. */
  function Payload(s: string, t: string): string
    requires |DataUriPrefix(t)| <= |s|
  {
    TakeUntil(s[|DataUriPrefix(t)|..], ',')
  }

  /** An image is acceptable when it declares a type, carries a non-empty payload, decodes
      to between 8 bytes and 5 MiB, and starts with that type's signature. */
  ghost predicate AcceptableImage(s: string, decode: string -> seq<Byte>) {
    exists t :: Declares(s, t) &&
      var raw := Payload(s, t);
      var b := decode(raw);
      raw != "" && MinImageBytes <= |b| <= MaxImageBytes && StartsWith(b, Signature(t))
  }

  /** Matching the magic bytes is being a prefix of the buffer. */
  lemma MatchesMagicBytesIsPrefix(buffer: seq<Byte>, expected: seq<Byte>)
    ensures MatchesMagicBytes(buffer, expected) <==> StartsWith(buffer, expected)
  {
    if |expected| > |buffer| {
      assert ByteAt(buffer, |buffer|) == None;
    } else if MatchesMagicBytes(buffer, expected) {
      assert forall i :: 0 <= i < |expected| ==> buffer[i] == expected[i] by {
        forall i | 0 <= i < |expected| ensures buffer[i] == expected[i] {
          assert ByteAt(buffer, i) == Some(expected[i]);
        }
      }
      assert buffer[..|expected|] == expected;
    }
  }

  /** At most one image type can be declared by a string. */
  lemma DeclaresUnique(s: string, t1: string, t2: string)
    requires Declares(s, t1) && Declares(s, t2)
    ensures t1 == t2
  {
    var p1, p2 := DataUriPrefix(t1), DataUriPrefix(t2);
    assert s[11] == p1[11] == p2[11];
    assert s[12] == p1[12] == p2[12];
    assert s[13] == p1[13] == p2[13];
  }

  /** The second comma-separated field of a declared data URI is its payload. */
  lemma SecondFieldIsPayload(s: string, t: string)
    requires Declares(s, t)
    ensures |Split(s, ',')| >= 2 && Split(s, ',')[1] == Payload(s, t)
  {
    var p := DataUriPrefix(t);
    var a := "data:image/" + t + ";base64";
    assert p == a + [','];
    assert ',' !in a by {
      assert forall i :: 0 <= i < |a| ==> a[i] != ',';
    }
    var rest := s[|p|..];
    assert s == a + [','] + rest by {
      assert s == s[..|p|] + rest;
    }
    SplitAfterSeparator(a, rest, ',');
  }

  /** `validateMenuImage` accepts exactly the acceptable images. */
  lemma ValidateMenuImageAcceptsExactly(s: string, decode: string -> seq<Byte>)
    ensures ValidateMenuImage(s, decode) <==> AcceptableImage(s, decode)
  {
    var m := MatchDataUri(s);
    if m.Some? {
      var t := m.value;
      assert Declares(s, t);
      SecondFieldIsPayload(s, t);
      var declared := if t == "jpg" then "jpeg" else t;
      assert declared in MagicBytes && MagicBytes[declared] == Signature(t);
      MatchesMagicBytesIsPrefix(decode(Payload(s, t)), Signature(t));
      assert s != "";
      if AcceptableImage(s, decode) {
        var t' :| Declares(s, t') &&
          var raw := Payload(s, t');
          var b := decode(raw);
          raw != "" && MinImageBytes <= |b| <= MaxImageBytes && StartsWith(b, Signature(t'));
        DeclaresUnique(s, t, t');
      }
    }
  }

  /** The empty string is rejected. */
  lemma EmptyImageRejected(decode: string -> seq<Byte>)
    ensures !ValidateMenuImage("", decode)
  {
  }

  /** A string without the data-URI prefix of an allowed type is rejected. */
  lemma UndeclaredImageRejected(s: string, decode: string -> seq<Byte>)
    requires forall t :: t in ImageTypes ==> !StartsWith(s, DataUriPrefix(t))
    ensures !ValidateMenuImage(s, decode)
  {
  }

  /** What an accepted image of declared type `t` satisfies: a non-empty payload whose
      decoding has between 8 bytes and 5 MiB and begins with the signature of `t`, where
      a declared `jpg` must carry the JPEG signature. */
  lemma AcceptedImage(s: string, decode: string -> seq<Byte>, t: string)
    requires ValidateMenuImage(s, decode) && Declares(s, t)
    ensures Payload(s, t) != ""
    ensures MinImageBytes <= |decode(Payload(s, t))| <= MaxImageBytes
    ensures t == "jpg" ==> StartsWith(decode(Payload(s, t)), MagicBytes["jpeg"])
    ensures t != "jpg" ==> t in MagicBytes && StartsWith(decode(Payload(s, t)), MagicBytes[t])
  {
    ValidateMenuImageAcceptsExactly(s, decode);
    var t' :| Declares(s, t') &&
      var raw := Payload(s, t');
      var b := decode(raw);
      raw != "" && MinImageBytes <= |b| <= MaxImageBytes && StartsWith(b, Signature(t'));
    DeclaresUnique(s, t, t');
  }

  // ---- Dish records ----

  /** A `Partial<Dish>` as far as the check reads it: `price` is `None` when the field is
      absent or not of type number. */
  datatype DishDraft = DishDraft(name: Option<string>, price: Option<real>, category: Option<string>)

  /** `validateDishData`. */
  function ValidateDishData(d: DishDraft): bool {
    if d.name.None? || d.name.value == "" || Utf16Length(Trim(d.name.value)) < 2 then false
    else if d.price.None? || d.price.value < 0.0 then false
    else if d.category.None? || d.category.value == "" then false
    else true
  }

  /** A dish is valid exactly when its trimmed name is two or more UTF-16 code units long,
      its price is a non-negative number and its category is present and not empty. */
  lemma ValidateDishDataExactly(d: DishDraft)
    ensures ValidateDishData(d) <==>
      && d.name.Some? && Utf16Length(Trim(d.name.value)) >= 2
      && d.price.Some? && d.price.value >= 0.0
      && d.category.Some? && d.category.value != ""
  {
  }

  /** The name is measured as `trim().length` measures it: one character outside the Basic
      Multilingual Plane is two code units and so a long enough name; one letter is not. */
  lemma DishNameInCodeUnits()
    ensures ValidateDishData(DishDraft(Some("\U{1F355}"), Some(5.0), Some("Mains")))
    ensures !ValidateDishData(DishDraft(Some("a"), Some(5.0), Some("Mains")))
  {
    var pizza, a := '\U{1F355}', 'a';
    assert "\U{1F355}" == [pizza] && "a" == [a];
    TrimOfTrimmed([pizza]);
    Utf16LengthOfChar(pizza);
    TrimOfTrimmed([a]);
    Utf16LengthOfChar(a);
  }

  // ---- Orders ----

  /** One item of an order as `validateOrder` requires it: a dish with an id and a
      positive quantity. */
  predicate WellFormedItem(item: OrderItem) {
    item.dish.id != "" && item.quantity > 0
  }

  /** `validateOrder`. */
  predicate ValidateOrder(tableNumber: int, items: seq<OrderItem>) {
    if tableNumber <= 0 then false
    else if |items| == 0 then false
    else forall i :: 0 <= i < |items| ==> WellFormedItem(items[i])
  }

  lemma ValidateOrderRejects(tableNumber: int, items: seq<OrderItem>)
    ensures tableNumber <= 0 ==> !ValidateOrder(tableNumber, items)
    ensures items == [] ==> !ValidateOrder(tableNumber, items)
    ensures tableNumber > 0 && items != [] ==>
      (ValidateOrder(tableNumber, items) <==> forall item :: item in items ==> WellFormedItem(item))
  {
  }
}

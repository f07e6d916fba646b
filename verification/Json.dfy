/**
 JSON trees and the text cJSON prints for them (cjson.c, print_value and the functions below it).  The text is given
 here as a function of the tree; the two printers are proved to produce it.
 */
module Json {
  import opened CText
  import opened Numerals

  /** A cJSON node with its children.  valuedouble is the exact number; valueint is its integer part. */
  datatype Json =
    | Null
    | False
    | True
    | Number(value: real)
    | String(str: string)
    | Array(items: seq<Json>)
    | Object(members: seq<Member>)

  datatype Member = Member(name: string, value: Json)

  function Int(n: int): Json {
    Number(n as real)
  }

  /** Trees whose numbers are finite and whose strings are C strings. */
  predicate Printable(j: Json)
    decreases j, 0
  {
    match j
    case Number(v) => IsFinite(v)
    case String(str) => IsCString(str)
    case Array(items) => forall item <- items :: Printable(item)
    case Object(members) => forall m <- members :: IsCString(m.name) && Printable(m.value)
    case _ => true
  }

  /** Trees whose numbers are exact integers. */
  predicate Exact(j: Json)
    decreases j, 0
  {
    match j
    case Number(v) => IsExact(v)
    case Array(items) => forall item <- items :: Exact(item)
    case Object(members) => forall m <- members :: Exact(m.value)
    case _ => true
  }

  // ---- what the text of a tree conveys ----

  /** The tree with its numbers as they are shown. */
  function Conveyed(j: Json): Json
    decreases j, 0
  {
    match j
    case Number(v) => Number(Shown(v))
    case Array(items) => Array(ConveyedItems(items, 0))
    case Object(members) => Object(ConveyedMembers(members, 0))
    case _ => j
  }

  function ConveyedItems(items: seq<Json>, k: nat): (r: seq<Json>)
    requires k <= |items|
    ensures |r| == |items| - k
    ensures forall i :: 0 <= i < |r| ==> r[i] == Conveyed(items[k + i])
    decreases items, |items| - k
  {
    if k == |items| then [] else [Conveyed(items[k])] + ConveyedItems(items, k + 1)
  }

  function ConveyedMembers(members: seq<Member>, k: nat): (r: seq<Member>)
    requires k <= |members|
    ensures |r| == |members| - k
    ensures forall i :: 0 <= i < |r| ==> r[i] == Member(members[k + i].name, Conveyed(members[k + i].value))
    decreases members, |members| - k
  {
    if k == |members| then []
    else [Member(members[k].name, Conveyed(members[k].value))] + ConveyedMembers(members, k + 1)
  }

  /** A tree of exact integers is conveyed as it is. */
  lemma {:induction false} ConveyedExact(j: Json)
    requires Exact(j)
    ensures Conveyed(j) == j
    decreases j
  {
    hide Shown, IsExact;
    match j
    case Number(v) => ShownExact(v);
    case Array(items) =>
      forall i | 0 <= i < |items| ensures Conveyed(items[i]) == items[i] {
        assert items[i] in items;
        ConveyedExact(items[i]);
      }
      assert ConveyedItems(items, 0) == items;
    case Object(members) =>
      forall i | 0 <= i < |members| ensures Conveyed(members[i].value) == members[i].value {
        assert members[i] in members;
        ConveyedExact(members[i].value);
      }
      assert ConveyedMembers(members, 0) == members;
    case _ =>
  }

  lemma IntExact(n: int)
    requires -EXACT_MAX <= n <= EXACT_MAX
    ensures Printable(Int(n)) && Exact(Int(n))
  {
    ExactIsFinite(n);
  }

  // ---- strings ----

  /** Characters that print_string_ptr writes as an escape. */
  predicate NeedsEscape(c: char) {
    c < 32 as char || c == '\"' || c == '\\'
  }

  function HexChar(d: nat): char
    requires d < 16
  {
    if d < 10 then '0' + d as char else 'a' + (d - 10) as char
  }

  function Escape(c: char): (t: string)
    ensures 1 <= |t| <= 6
  {
    if !NeedsEscape(c) then [c]
    else if c == '\\' then "\\\\"
    else if c == '\"' then "\\\""
    else if c == 8 as char then "\\b"
    else if c == 12 as char then "\\f"
    else if c == '\n' then "\\n"
    else if c == '\r' then "\\r"
    else if c == '\t' then "\\t"
    else "\\u00" + [HexChar(c as nat / 16), HexChar(c as nat % 16)]
  }

  /** The escaped form of str[k..]. */
  function Escaped(str: string, k: nat): string
    requires k <= |str|
    decreases |str| - k
  {
    if k == |str| then "" else Escape(str[k]) + Escaped(str, k + 1)
  }

  function Quoted(str: string): string {
    "\"" + Escaped(str, 0) + "\""
  }

  // ---- values ----

  function Tabs(n: nat): (t: string)
    ensures |t| == n
  {
    seq(n, _ => '\t')
  }

  /** The text of j printed at the given depth, formatted (fmt != 0) or not. */
  function Text(j: Json, depth: nat, fmt: bool): string
    decreases j, 0
  {
    match j
    case Null => "null"
    case False => "false"
    case True => "true"
    case Number(v) => NumeralText(NumeralFor(v))
    case String(str) => Quoted(str)
    case Array(items) => "[" + ItemsText(items, 0, depth + 1, fmt) + "]"
    case Object(members) => Open(fmt) + MembersText(members, 0, depth + 1, fmt) + Close(depth, fmt)
  }

  function Open(fmt: bool): string {
    if fmt then "{\n" else "{"
  }

  function Close(depth: nat, fmt: bool): string {
    (if fmt then Tabs(depth) else "") + "}"
  }

  /** items[k..], separated by commas. */
  function ItemsText(items: seq<Json>, k: nat, depth: nat, fmt: bool): string
    requires k <= |items|
    decreases items, |items| - k
  {
    if k == |items| then ""
    else Text(items[k], depth, fmt) + ItemSeparator(items, k, fmt) + ItemsText(items, k + 1, depth, fmt)
  }

  function ItemSeparator(items: seq<Json>, k: nat, fmt: bool): string
    requires k < |items|
  {
    if k == |items| - 1 then "" else if fmt then ", " else ","
  }

  /** members[k..], each with its separator and, formatted, on a line of its own. */
  function MembersText(members: seq<Member>, k: nat, depth: nat, fmt: bool): string
    requires k <= |members|
    decreases members, |members| - k
  {
    if k == |members| then ""
    else
      MemberHead(members[k].name, depth, fmt) + Text(members[k].value, depth, fmt) +
      MemberTail(members, k, fmt) + MembersText(members, k + 1, depth, fmt)
  }

  function MemberHead(name: string, depth: nat, fmt: bool): string {
    (if fmt then Tabs(depth) else "") + Quoted(name) + (if fmt then ":\t" else ":")
  }

  function MemberTail(members: seq<Member>, k: nat, fmt: bool): string
    requires k < |members|
  {
    (if k == |members| - 1 then "" else ",") + (if fmt then "\n" else "")
  }
}

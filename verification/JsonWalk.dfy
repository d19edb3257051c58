/** Redacting a JSON value for display: which positions are hidden, in what order, under what path. */
module JsonWalk {
  import opened Text
  import Redactor

  /** Numbers keep the text they print as. An object's keys are distinct, in document order. */
  datatype Json =
    | Null
    | Bool(value: bool)
    | Number(literal: string)
    | Str(text: string)
    | Arr(items: seq<Json>)
    | Obj(fields: seq<Field>)

  datatype Field = Field(key: string, value: Json)

  datatype Reason = Key | Shape

  datatype Redaction = Redaction(path: string, reason: Reason)

  /** What the library supplies: the marker, and how many characters a value prints as. */
  datatype Library = Library(marker: Redactor.Marker, printedLength: Json -> nat)

  // ---------------------------------------------------------------------------------------------
  // Keys

  /** Lower case as far as it can reach ASCII: U+212A and U+0130 are the only characters outside
      ASCII whose lower case holds an ASCII letter. */
  function Lowercase(c: char): string {
    if c as int == 0x212a then "k"
    else if c as int == 0x130 then ['i', '\U{0307}']
    else [Redactor.AsciiLower(c)]
  }

  function Folded(key: string): string {
    if key == "" then ""
    else (if key[0] == '-' || key[0] == '_' then "" else Lowercase(key[0])) + Folded(key[1..])
  }

  const SECRET_KEYS := {
    "apikey", "authorization", "cookie", "credential", "credentials", "password", "privatekey",
    "secret", "session", "sessiontoken", "token" }

  predicate KeyIsSecret(key: string) {
    Folded(key) in SECRET_KEYS
  }

  // ---------------------------------------------------------------------------------------------
  // Trees and positions

  function Count(v: Json): nat {
    match v
    case Arr(items) => |items|
    case Obj(fields) => |fields|
    case _ => 0
  }

  function Child(v: Json, i: nat): (c: Json)
    requires i < Count(v)
    ensures c < v
  {
    match v
    case Arr(items) => items[i]
    case Obj(fields) => fields[i].value
  }

  function DigitOf(n: nat): (c: char)
    requires n < 10
    ensures '0' <= c <= '9' && c as int - '0' as int == n
  {
    ('0' as int + n) as char
  }

  /** An array index in decimal. */
  function Itoa(n: nat): (s: string)
    ensures s != "" && '.' !in s
  {
    if n < 10 then [DigitOf(n)] else Itoa(n / 10) + [DigitOf(n % 10)]
  }

  function Name(v: Json, i: nat): string
    requires i < Count(v)
  {
    if v.Obj? then v.fields[i].key else Itoa(i)
  }

  predicate UnderSecretKey(v: Json, i: nat)
    requires i < Count(v)
  {
    v.Obj? && KeyIsSecret(v.fields[i].key)
  }

  type Position = seq<nat>

  /** The node at a position. */
  function At(v: Json, pos: Position): Option<Json>
    decreases |pos|
  {
    if pos == [] then Some(v)
    else if pos[0] < Count(v) then At(Child(v, pos[0]), pos[1..])
    else None
  }

  /** Why a node is replaced as a whole, if it is. */
  function HiddenFor(v: Json, secretKey: bool, lib: Library): Option<Reason> {
    if v.Null? then None
    else if secretKey then Some(Key)
    else if v.Str? && Redactor.Redaction(v.text, lib.marker).Some? then Some(Shape)
    else None
  }

  /** What is drawn in its place. */
  function Replacement(v: Json, secretKey: bool, lib: Library): Json
    requires HiddenFor(v, secretKey, lib).Some?
  {
    if v.Str? && !secretKey then Str(Redactor.Redaction(v.text, lib.marker).value)
    else Str(lib.marker(if v.Str? then |v.text| else lib.printedLength(v)))
  }

  /** Position `pos` is where something is hidden: no node above it was, and it is. */
  predicate Hidden(v: Json, secretKey: bool, pos: Position, lib: Library)
    decreases |pos|
  {
    if pos == [] then HiddenFor(v, secretKey, lib).Some?
    else
      && HiddenFor(v, secretKey, lib).None?
      && pos[0] < Count(v)
      && Hidden(Child(v, pos[0]), UnderSecretKey(v, pos[0]), pos[1..], lib)
  }

  // ---------------------------------------------------------------------------------------------
  // The pure walk

  function Join(path: string, name: string): string {
    if path == "" then name else path + "." + name
  }

  function Rebuilt(v: Json, children: seq<Json>): Json
    requires |children| == Count(v)
  {
    match v
    case Arr(_) => Arr(children)
    case Obj(fields) => Obj(seq(|fields|, i requires 0 <= i < |fields| => Field(fields[i].key, children[i])))
    case scalar => scalar
  }

  /** A value as displayed. */
  function Walked(v: Json, secretKey: bool, lib: Library): Json
    decreases v, 1
  {
    if HiddenFor(v, secretKey, lib).Some? then Replacement(v, secretKey, lib)
    else Rebuilt(v, WalkedChildren(v, Count(v), lib))
  }

  function WalkedChildren(v: Json, n: nat, lib: Library): (children: seq<Json>)
    requires n <= Count(v)
    ensures |children| == n
    decreases v, 0, n
  {
    if n == 0 then []
    else WalkedChildren(v, n - 1, lib) + [Walked(Child(v, n - 1), UnderSecretKey(v, n - 1), lib)]
  }

  /** What was hidden, in document order. */
  function Found(v: Json, secretKey: bool, path: string, lib: Library): seq<Redaction>
    decreases v, 1
  {
    if HiddenFor(v, secretKey, lib).Some? then [Redaction(path, HiddenFor(v, secretKey, lib).value)]
    else FoundBelow(v, Count(v), path, lib)
  }

  function FoundBelow(v: Json, n: nat, path: string, lib: Library): seq<Redaction>
    requires n <= Count(v)
    decreases v, 0, n
  {
    if n == 0 then []
    else
      var child := Found(Child(v, n - 1), UnderSecretKey(v, n - 1), Join(path, Name(v, n - 1)), lib);
      FoundBelow(v, n - 1, path, lib) + child
  }

  // ---------------------------------------------------------------------------------------------
  // The walk over shared buffers

  /** The path grown on the way down and cut back on the way up. */
  class PathBuffer {
    var text: string

    constructor ()
      ensures text == ""
    {
      text := "";
    }

    method Push(name: string)
      modifies this
      ensures text == Join(old(text), name)
    {
      if text != "" {
        text := text + ".";
      }
      text := text + name;
    }

    method Truncate(length: nat)
      requires length <= |text|
      modifies this
      ensures text == old(text)[..length]
    {
      text := text[..length];
    }
  }

  class RedactionList {
    var items: seq<Redaction>

    constructor ()
      ensures items == []
    {
      items := [];
    }

    method Push(item: Redaction)
      modifies this
      ensures items == old(items) + [item]
    {
      items := items + [item];
    }
  }

  /** One child under its own name, with the path restored afterwards: one turn of the loop over an
      array's items or an object's fields. */
  method WalkChild(v: Json, i: nat, before: seq<Json>, path: PathBuffer, found: RedactionList, lib: Library,
                   ghost earlier: seq<Redaction>)
    returns (children: seq<Json>)
    requires i < Count(v) && before == WalkedChildren(v, i, lib)
    requires found.items == earlier + FoundBelow(v, i, path.text, lib)
    modifies path, found
    ensures children == WalkedChildren(v, i + 1, lib)
    ensures path.text == old(path.text)
    ensures found.items == earlier + FoundBelow(v, i + 1, path.text, lib)
    decreases v, 1
  {
    hide Walked, Found, UnderSecretKey, Itoa;
    var restore := |path.text|;
    path.Push(Name(v, i));
    var shown := Walk(Child(v, i), UnderSecretKey(v, i), path, found, lib);
    path.Truncate(restore);
    children := before + [shown];
  }

  /** Redacts a value, appending to one list and keeping one path buffer. */
  method Walk(v: Json, secretKey: bool, path: PathBuffer, found: RedactionList, lib: Library) returns (shown: Json)
    modifies path, found
    ensures shown == Walked(v, secretKey, lib)
    ensures path.text == old(path.text)
    ensures found.items == old(found.items) + Found(v, secretKey, old(path.text), lib)
    decreases v, 3
  {
    hide WalkedChildren, Redactor.Redaction;
    if v.Str? {
      if secretKey {
        found.Push(Redaction(path.text, Key));
        return Str(lib.marker(|v.text|));
      }
      var redacted := Redactor.RedactText(v.text, lib.marker);
      if redacted.None? {
        return v;
      }
      found.Push(Redaction(path.text, Shape));
      return Str(redacted.value);
    }
    if secretKey && !v.Null? {
      found.Push(Redaction(path.text, Key));
      return Str(lib.marker(lib.printedLength(v)));
    }
    var children := WalkAll(v, path, found, lib);
    shown := Rebuilt(v, children);
  }

  /** The loop over an array's items or an object's fields. */
  method WalkAll(v: Json, path: PathBuffer, found: RedactionList, lib: Library) returns (children: seq<Json>)
    modifies path, found
    ensures children == WalkedChildren(v, Count(v), lib)
    ensures path.text == old(path.text)
    ensures found.items == old(found.items) + FoundBelow(v, Count(v), old(path.text), lib)
    decreases v, 2
  {
    children := [];
    ghost var earlier, prefix := found.items, path.text;
    assert found.items == earlier + FoundBelow(v, 0, prefix, lib);
    var i := 0;
    while i < Count(v)
      invariant i <= Count(v)
      invariant path.text == prefix
      invariant children == WalkedChildren(v, i, lib)
      invariant found.items == earlier + FoundBelow(v, i, prefix, lib)
    {
      children := WalkChild(v, i, children, path, found, lib, earlier);
      i := i + 1;
    }
  }

  /** A value as displayed, and everything hidden to produce it. */
  method Redact(v: Json, lib: Library) returns (shown: Json, redactions: seq<Redaction>)
    ensures shown == Walked(v, false, lib) && redactions == Found(v, false, "", lib)
  {
    var path := new PathBuffer();
    var found := new RedactionList();
    shown := Walk(v, false, path, found, lib);
    redactions := found.items;
  }
}

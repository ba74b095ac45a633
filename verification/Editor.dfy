/** Setting and unsetting a value by its dotted path (internal/config/editor.go). */
module Editor {
  import opened Wrappers

  datatype Kind = TextKind | ListKind | BytesKind | FlagKind | NumberKind

  datatype Data = Text(text: string) | List(items: seq<string>) | Bytes(bytes: string) | Flag(on: bool) | Number(n: int)

  datatype Field = Field(name: string, schema: Schema)

  /** The shape of the configuration types: leaves, structs (by value or behind a
      pointer) and string-keyed tables. */
  datatype Schema =
    | Leaf(kind: Kind)
    | Struct(fields: seq<Field>, pointer: bool)
    | Table(row: Schema)

  /** Nil is a nil pointer or a nil table. */
  datatype Value =
    | Nil
    | Datum(data: Data)
    | Record(values: seq<Value>)
    | Rows(rows: map<string, Value>)

  /** Text conversions taken as given. */
  datatype Parsers = Parsers(number: string -> Option<int>, flag: string -> Option<bool>, list: string -> seq<string>)

  function ZeroData(kind: Kind): Data {
    match kind
    case TextKind => Text("")
    case ListKind => List([])
    case BytesKind => Bytes("")
    case FlagKind => Flag(false)
    case NumberKind => Number(0)
  }

  function Parse(using: Parsers, kind: Kind, text: string): Option<Data> {
    match kind
    case TextKind => Some(Text(text))
    case ListKind => Some(List(using.list(text)))
    case BytesKind => Some(Bytes(text))
    case FlagKind =>
      if text == "" then Some(Flag(false))
      else (match using.flag(text) case None => None case Some(on) => Some(Flag(on)))
    case NumberKind => (match using.number(text) case None => None case Some(n) => Some(Number(n)))
  }

  /** Texts and bytes are taken verbatim, the empty text clears a text, bytes or a flag, and
      lists, flags and numbers go by their parsers. */
  lemma ParsesExactly(using: Parsers, text: string)
    ensures Parse(using, TextKind, text) == Some(Text(text)) && Parse(using, BytesKind, text) == Some(Bytes(text))
    ensures forall kind :: kind in {TextKind, BytesKind, FlagKind} ==> Parse(using, kind, "") == Some(ZeroData(kind))
    ensures Parse(using, ListKind, text) == Some(List(using.list(text)))
    ensures text != "" ==> (Parse(using, FlagKind, text).Some? <==> using.flag(text).Some?)
    ensures forall on :: text != "" && using.flag(text) == Some(on) ==> Parse(using, FlagKind, text) == Some(Flag(on))
    ensures Parse(using, NumberKind, text) == if using.number(text).Some? then Some(Number(using.number(text).value)) else None
    ensures ZeroData(ListKind) == List([]) && ZeroData(NumberKind) == Number(0) && ZeroData(FlagKind) == Flag(false)
  {
  }

  function Zero(schema: Schema): Value {
    match schema
    case Leaf(kind) => Datum(ZeroData(kind))
    case Struct(fields, pointer) => if pointer then Nil else Blank(schema)
    case Table(_) => Nil
  }

  /** A struct with every field at its zero. */
  function Blank(schema: Schema): Value
    requires schema.Struct?
    decreases schema, 0
  {
    Record(seq(|schema.fields|, i requires 0 <= i < |schema.fields| => Zero(schema.fields[i].schema)))
  }

  /** What the next step needs to be able to write into a nil. */
  function Allocated(schema: Schema, value: Value): Value {
    if !value.Nil? then value
    else match schema
      case Leaf(_) => value
      case Struct(_, _) => Blank(schema)
      case Table(_) => Rows(map[])
  }

  function Find(fields: seq<Field>, name: string): int {
    if fields == [] then -1
    else if fields[0].name == name then 0
    else
      var i := Find(fields[1..], name);
      if i < 0 then -1 else i + 1
  }

  lemma {:induction false} FindIsFirst(fields: seq<Field>, name: string)
    ensures -1 <= Find(fields, name) < |fields|
    ensures Find(fields, name) >= 0 ==> fields[Find(fields, name)].name == name
    ensures forall j :: 0 <= j < |fields| && fields[j].name == name ==> 0 <= Find(fields, name) <= j
  {
    if fields != [] && fields[0].name != name {
      FindIsFirst(fields[1..], name);
    }
  }

  function At(fields: seq<Field>, name: string): (i: int)
    ensures -1 <= i < |fields|
  {
    FindIsFirst(fields, name);
    Find(fields, name)
  }

  predicate HasShape(schema: Schema, value: Value) {
    match schema
    case Leaf(_) => value.Datum?
    case Struct(fields, pointer) =>
      (value.Nil? && pointer)
      || (value.Record? && |value.values| == |fields| && forall i :: 0 <= i < |fields| ==> HasShape(fields[i].schema, value.values[i]))
    case Table(row) => value.Nil? || (value.Rows? && forall k :: k in value.rows ==> HasShape(row, value.rows[k]))
  }

  /** Rows of a table are texts, pointers to structs, or tables. */
  predicate Editable(schema: Schema) {
    match schema
    case Leaf(_) => true
    case Struct(fields, _) => forall i :: 0 <= i < |fields| ==> Editable(fields[i].schema)
    case Table(row) => (row.Leaf? ==> row.kind.TextKind?) && (row.Struct? ==> row.pointer) && Editable(row)
  }

  /** The row a longer path goes on in: a missing one is created, a nil table too. */
  function Target(row: Schema, rows: map<string, Value>, key: string): Value {
    if key !in rows then Allocated(row, Zero(row))
    else if row.Table? then Allocated(row, rows[key])
    else rows[key]
  }

  /** The update as the program performs it: even a failed one may leave empty
      structures behind. */
  function Update(using: Parsers, schema: Schema, value: Value, path: seq<string>, text: string, unset: bool): (bool, Value)
    requires HasShape(schema, value)
    decreases schema
  {
    match schema
    case Leaf(kind) =>
      if path != [] then (false, value)
      else if unset then (true, Datum(ZeroData(kind)))
      else (match Parse(using, kind, text) case None => (false, value) case Some(data) => (true, Datum(data)))
    case Struct(fields, _) =>
      if value.Nil? then (false, value)
      else if path == [] then if unset then (true, Blank(schema)) else (false, value)
      else
        var i := At(fields, path[0]);
        if i < 0 then (false, value)
        else if |path| == 1 && unset then (true, Record(value.values[i := Zero(fields[i].schema)]))
        else
          ShapeOfZero(fields[i].schema);
          var (ok, inner) := Update(using, fields[i].schema, Allocated(fields[i].schema, value.values[i]), path[1..], text, unset);
          (ok, Record(value.values[i := inner]))
    case Table(row) =>
      if value.Nil? || path == [] then (false, value)
      else
        var key, rows := path[0], value.rows;
        if |path| == 1 && unset then (true, Rows(rows - {key}))
        else if |path| == 1 && row.Leaf? && row.kind.TextKind? then (true, Rows(rows[key := Datum(Text(text))]))
        else if unset && (key !in rows || (row.Table? && rows[key].Nil?)) then (true, value)
        else
          ShapeOfZero(row);
          var (ok, inner) := Update(using, row, Target(row, rows, key), path[1..], text, unset);
          (ok, Rows(rows[key := inner]))
  }

  lemma {:induction false} ShapeOfZero(schema: Schema)
    ensures HasShape(schema, Zero(schema)) && (!schema.Leaf? ==> HasShape(schema, Allocated(schema, Nil)))
    decreases schema
  {
    if schema.Struct? {
      forall i | 0 <= i < |schema.fields| ensures HasShape(schema.fields[i].schema, Zero(schema.fields[i].schema)) {
        ShapeOfZero(schema.fields[i].schema);
      }
    }
  }

  // ----- What a path reads -----

  /** The datum at a path where nothing was ever set; None when no leaf is there. */
  function Default(schema: Schema, path: seq<string>): Option<Data>
    decreases schema
  {
    match schema
    case Leaf(kind) => if path == [] then Some(ZeroData(kind)) else None
    case Struct(fields, _) =>
      if path == [] || At(fields, path[0]) < 0 then None else Default(fields[At(fields, path[0])].schema, path[1..])
    case Table(row) => if path == [] then None else Default(row, path[1..])
  }

  /** The datum at a path: a nil structure or a missing row reads as never set. */
  function Read(schema: Schema, value: Value, path: seq<string>): Option<Data>
    requires HasShape(schema, value)
    decreases schema
  {
    if value.Nil? then Default(schema, path)
    else match schema
      case Leaf(_) => if path == [] then Some(value.data) else None
      case Struct(fields, _) =>
        if path == [] || At(fields, path[0]) < 0 then None
        else Read(fields[At(fields, path[0])].schema, value.values[At(fields, path[0])], path[1..])
      case Table(row) =>
        if path == [] then None
        else if path[0] in value.rows then Read(row, value.rows[path[0]], path[1..])
        else Default(row, path[1..])
  }

  lemma {:induction false} ZeroReadsDefault(schema: Schema, path: seq<string>)
    ensures HasShape(schema, Zero(schema)) && Read(schema, Zero(schema), path) == Default(schema, path)
    ensures schema.Struct? ==> HasShape(schema, Blank(schema)) && Read(schema, Blank(schema), path) == Default(schema, path)
    decreases schema
  {
    ShapeOfZero(schema);
    if schema.Struct? && path != [] && At(schema.fields, path[0]) >= 0 {
      ZeroReadsDefault(schema.fields[At(schema.fields, path[0])].schema, path[1..]);
    }
  }

  /** Allocation is invisible to reading. */
  lemma AllocationIsInvisible(schema: Schema, value: Value, path: seq<string>)
    requires HasShape(schema, value)
    ensures HasShape(schema, Allocated(schema, value)) && Read(schema, Allocated(schema, value), path) == Read(schema, value, path)
  {
    ShapeOfZero(schema);
    ZeroReadsDefault(schema, path);
  }

  /** The reading at `q` after an update at `path`. */
  function Expected(using: Parsers, schema: Schema, value: Value, path: seq<string>, text: string, unset: bool, q: seq<string>): Option<Data>
    requires HasShape(schema, value)
  {
    if !Update(using, schema, value, path, text, unset).0 then Read(schema, value, q)
    else if unset then if path <= q then Default(schema, q) else Read(schema, value, q)
    else if q == path then Written(using, schema, path, text)
    else Read(schema, value, q)
  }

  /** The datum a text stands for at a path. */
  function Written(using: Parsers, schema: Schema, path: seq<string>, text: string): Option<Data>
    decreases schema
  {
    match schema
    case Leaf(kind) => if path == [] then Parse(using, kind, text) else None
    case Struct(fields, _) =>
      if path == [] || At(fields, path[0]) < 0 then None else Written(using, fields[At(fields, path[0])].schema, path[1..], text)
    case Table(row) => if path == [] then None else Written(using, row, path[1..], text)
  }

  ghost predicate Law(using: Parsers, schema: Schema, value: Value, path: seq<string>, text: string, unset: bool, q: seq<string>)
    requires HasShape(schema, value)
  {
    var (ok, after) := Update(using, schema, value, path, text, unset);
    && HasShape(schema, after) && Read(schema, after, q) == Expected(using, schema, value, path, text, unset, q)
    && (ok && !unset ==> Written(using, schema, path, text).Some?)
  }

  lemma TailsCompare(path: seq<string>, q: seq<string>)
    requires path != [] && q != [] && path[0] == q[0]
    ensures path <= q <==> path[1..] <= q[1..]
    ensures path == q <==> path[1..] == q[1..]
  {
    assert path == [path[0]] + path[1..] && q == [q[0]] + q[1..];
  }

  /** The laws of the editor at once, for every path `q`: a successful set is read
      back at its path and disturbs no other, an unset restores the default at and
      below its path and nothing else, and a failed update changes no reading. */
  lemma {:induction false} UpdateReads(using: Parsers, schema: Schema, value: Value, path: seq<string>, text: string, unset: bool, q: seq<string>)
    requires HasShape(schema, value) && Editable(schema)
    ensures Law(using, schema, value, path, text, unset, q)
    decreases schema
  {
    match schema
    case Leaf(_) =>
    case Struct(fields, _) =>
      if !value.Nil? && path == [] {
        ZeroReadsDefault(schema, q);
      } else if !value.Nil? && At(fields, path[0]) >= 0 {
        var i := At(fields, path[0]);
        var rest := if q == [] then [] else q[1..];
        AllocationIsInvisible(fields[i].schema, value.values[i], rest);
        UpdateReads(using, fields[i].schema, Allocated(fields[i].schema, value.values[i]), path[1..], text, unset, rest);
        ZeroReadsDefault(fields[i].schema, rest);
        StructCase(using, schema, value, path, text, unset, q);
      }
    case Table(row) =>
      if !value.Nil? && path != [] {
        var rest := if q == [] then [] else q[1..];
        ZeroReadsDefault(row, rest);
        ShapeOfZero(row);
        var target := Target(row, value.rows, path[0]);
        AllocationIsInvisible(row, Zero(row), rest);
        if path[0] in value.rows {
          AllocationIsInvisible(row, value.rows[path[0]], rest);
        }
        UpdateReads(using, row, target, path[1..], text, unset, rest);
        TableCase(using, schema, value, path, text, unset, q);
      }
  }

  lemma StructCase(using: Parsers, schema: Schema, value: Value, path: seq<string>, text: string, unset: bool, q: seq<string>)
    requires schema.Struct? && HasShape(schema, value) && value.Record? && path != [] && At(schema.fields, path[0]) >= 0
    requires var i := At(schema.fields, path[0]);
             var rest := if q == [] then [] else q[1..];
             var inner := Allocated(schema.fields[i].schema, value.values[i]);
             && HasShape(schema.fields[i].schema, inner)
             && Read(schema.fields[i].schema, inner, rest) == Read(schema.fields[i].schema, value.values[i], rest)
             && Law(using, schema.fields[i].schema, inner, path[1..], text, unset, rest)
             && HasShape(schema.fields[i].schema, Zero(schema.fields[i].schema))
             && Read(schema.fields[i].schema, Zero(schema.fields[i].schema), rest) == Default(schema.fields[i].schema, rest)
    ensures Law(using, schema, value, path, text, unset, q)
  {
    FindIsFirst(schema.fields, path[0]);
    if q != [] {
      FindIsFirst(schema.fields, q[0]);
      if q[0] == path[0] {
        TailsCompare(path, q);
      }
    }
  }

  lemma TableCase(using: Parsers, schema: Schema, value: Value, path: seq<string>, text: string, unset: bool, q: seq<string>)
    requires schema.Table? && Editable(schema) && HasShape(schema, value) && value.Rows? && path != []
    requires var rest := if q == [] then [] else q[1..];
             var target := Target(schema.row, value.rows, path[0]);
             && HasShape(schema.row, target)
             && Read(schema.row, target, rest) == (if path[0] in value.rows then Read(schema.row, value.rows[path[0]], rest) else Default(schema.row, rest))
             && Law(using, schema.row, target, path[1..], text, unset, rest)
    ensures Law(using, schema, value, path, text, unset, q)
  {
    hide Blank, ZeroData;
    if q != [] && q[0] == path[0] {
      TailsCompare(path, q);
    }
  }

  /** No nil pointer stands in the way: an existing row that is a nil pointer is not
      written into. */
  predicate Open(schema: Schema, value: Value, path: seq<string>)
    requires HasShape(schema, value)
    decreases schema
  {
    match schema
    case Leaf(_) => true
    case Struct(fields, _) =>
      !value.Nil?
      && (path == [] || At(fields, path[0]) < 0
          || (ShapeOfZero(fields[At(fields, path[0])].schema);
              Open(fields[At(fields, path[0])].schema, Allocated(fields[At(fields, path[0])].schema, value.values[At(fields, path[0])]), path[1..])))
    case Table(row) =>
      !value.Nil?
      && (path == [] || (ShapeOfZero(row); Open(row, Target(row, value.rows, path[0]), path[1..])))
  }

  /** What stands in the way below a table: a nil pointer that is already a row of it, and
      nothing else. */
  lemma NilRowsBlock(schema: Schema, value: Value, path: seq<string>)
    requires schema.Table? && HasShape(schema, value) && value.Rows? && path != [] && (schema.row.Struct? ==> schema.row.pointer)
    ensures path[0] in value.rows && value.rows[path[0]].Nil? && schema.row.Struct? ==> !Open(schema, value, path)
    ensures path[0] in value.rows && value.rows[path[0]].Nil? && schema.row.Table? ==>
              (Open(schema, value, path) <==> Open(schema.row, Rows(map[]), path[1..]))
    ensures path[0] in value.rows && !value.rows[path[0]].Nil? ==>
              (Open(schema, value, path) <==> Open(schema.row, value.rows[path[0]], path[1..]))
    ensures path[0] !in value.rows && schema.row.Table? ==> (Open(schema, value, path) <==> Open(schema.row, Rows(map[]), path[1..]))
    ensures path[0] !in value.rows && schema.row.Struct? ==>
              (ShapeOfZero(schema.row); Open(schema, value, path) <==> Open(schema.row, Blank(schema.row), path[1..]))
  {
    ShapeOfZero(schema.row);
  }

  /** The part of the schema a path names. */
  predicate Names(schema: Schema, path: seq<string>)
    decreases schema
  {
    path == [] || match schema
      case Leaf(_) => false
      case Struct(fields, _) => At(fields, path[0]) >= 0 && Names(fields[At(fields, path[0])].schema, path[1..])
      case Table(row) => Names(row, path[1..])
  }

  /** A set succeeds exactly when its path names a leaf that takes the text and no nil
      pointer is in the way; an unset of a named part succeeds then too. */
  lemma {:induction false} WhenUpdatesSucceed(using: Parsers, schema: Schema, value: Value, path: seq<string>, text: string)
    requires HasShape(schema, value) && Editable(schema)
    ensures Update(using, schema, value, path, text, false).0 <==> Written(using, schema, path, text).Some? && Open(schema, value, path)
    ensures path != [] && Names(schema, path) && Open(schema, value, path) ==> Update(using, schema, value, path, text, true).0
    decreases schema
  {
    match schema
    case Leaf(_) =>
    case Struct(fields, _) =>
      if !value.Nil? && path != [] && At(fields, path[0]) >= 0 {
        var i := At(fields, path[0]);
        ShapeOfZero(fields[i].schema);
        WhenUpdatesSucceed(using, fields[i].schema, Allocated(fields[i].schema, value.values[i]), path[1..], text);
      }
    case Table(row) =>
      if !value.Nil? && path != [] {
        ShapeOfZero(row);
        WhenUpdatesSucceed(using, row, Target(row, value.rows, path[0]), path[1..], text);
      }
  }
}

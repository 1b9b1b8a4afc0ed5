/** The audit record of a tool call: argument redaction, the one-line summary and the record's bounds. */
module ToolAudit {
  import opened Collections
  import opened Texts

  datatype FieldName = FieldName(text: string)

  datatype Field = Field(key: FieldName, value: Json)

  /** A JSON value; a number is kept as its printed text and an object's fields in insertion order. */
  datatype Json =
    | Null
    | Bool(value: bool)
    | Num(printed: string)
    | Str(text: string)
    | Arr(items: seq<Json>)
    | Obj(fields: seq<Field>)

  /** No object has two fields of one name. */
  ghost predicate IsJson(v: Json) {
    match v
    case Arr(items) => forall i :: 0 <= i < |items| ==> IsJson(items[i])
    case Obj(fields) => NamesDiffer(fields) && forall i :: 0 <= i < |fields| ==> IsJson(fields[i].value)
    case _ => true
  }

  ghost predicate NamesDiffer(fields: seq<Field>) {
    forall i, j :: 0 <= i < j < |fields| ==> fields[i].key != fields[j].key
  }

  function Property(fields: seq<Field>, key: FieldName): Option<Json> {
    if fields == [] then None
    else if fields[0].key == key then Some(fields[0].value)
    else Property(fields[1..], key)
  }

  // Redaction.

  const SENSITIVE_NAMES := {
    "password", "passwd", "secret", "token", "apikey", "api_key", "api-key", "authorization",
    "bearer", "cookie", "privatekey", "private_key", "private-key"
  }

  const DEPTH_LIMIT := 4
  const STRING_LIMIT := 120
  const ARRAY_LIMIT := 8

  /** ASCII lower case: the only case folding the pattern does. */
  function Lower(s: string): string {
    seq(|s|, i requires 0 <= i < |s| => if 'A' <= s[i] <= 'Z' then s[i] + ' ' else s[i])
  }

  predicate IsSensitive(name: FieldName) { Lower(name.text) in SENSITIVE_NAMES }

  const HIDDEN := Str("[redacted]")
  const TOO_DEEP := Str("[…]")

  function FirstFew(items: seq<Json>): seq<Json> {
    if |items| <= ARRAY_LIMIT then items else items[..ARRAY_LIMIT]
  }

  function Redacted(v: Json, depth: nat): Json
    decreases v
  {
    if depth > DEPTH_LIMIT then TOO_DEEP
    else match v
      case Str(text) => Str(Truncate(text, STRING_LIMIT))
      case Arr(items) =>
        var few := FirstFew(items);
        Arr(seq(|few|, i requires 0 <= i < |few| => Redacted(items[i], depth + 1)))
      case Obj(fields) =>
        Obj(seq(|fields|, i requires 0 <= i < |fields| => RedactedField(fields[i], depth)))
      case _ => v
  }

  function RedactedField(f: Field, depth: nat): Field
    decreases f
  {
    Field(f.key, if IsSensitive(f.key) then HIDDEN else Redacted(f.value, depth + 1))
  }

  /** Assigning a property: an existing name keeps its place, a new one goes last. */
  function Assigned(fields: seq<Field>, key: FieldName, value: Json): seq<Field> {
    if fields == [] then [Field(key, value)]
    else if fields[0].key == key then [Field(key, value)] + fields[1..]
    else [fields[0]] + Assigned(fields[1..], key, value)
  }

  lemma {:induction false} AssignedFresh(fields: seq<Field>, key: FieldName, value: Json)
    requires forall f <- fields :: f.key != key
    ensures Assigned(fields, key, value) == fields + [Field(key, value)]
  {
    if fields == [] {
    } else {
      assert fields == [fields[0]] + fields[1..];
      assert forall f <- fields[1..] :: f in fields;
      AssignedFresh(fields[1..], key, value);
    }
  }

  method RedactValue(value: Json, depth: nat) returns (r: Json)
    requires IsJson(value)
    ensures r == Redacted(value, depth)
    decreases value
  {
    if depth > DEPTH_LIMIT { return TOO_DEEP; }
    match value {
      case Null => r := value;
      case Bool(_) => r := value;
      case Num(_) => r := value;
      case Str(text) => r := Str(Truncate(text, STRING_LIMIT));
      case Arr(items) =>
        var few := FirstFew(items);
        var out: seq<Json> := [];
        for i := 0 to |few|
          invariant out == Redacted(value, depth).items[..i]
        {
          var item := RedactValue(items[i], depth + 1);
          out := out + [item];
        }
        r := Arr(out);
      case Obj(fields) =>
        var out: seq<Field> := [];
        for i := 0 to |fields|
          invariant |out| == i && forall j :: 0 <= j < i ==> out[j] == RedactedField(fields[j], depth)
        {
          var shown := HIDDEN;
          if !IsSensitive(fields[i].key) {
            shown := RedactValue(fields[i].value, depth + 1);
          }
          AssignedFresh(out, fields[i].key, shown);
          out := Assigned(out, fields[i].key, shown);
        }
        r := Obj(out);
    }
  }

  /** Equal except for what stands under sensitive names. */
  ghost predicate Agree(a: Json, b: Json) {
    match (a, b)
    case (Arr(x), Arr(y)) => |x| == |y| && forall i :: 0 <= i < |x| ==> Agree(x[i], y[i])
    case (Obj(x), Obj(y)) => |x| == |y| && forall i :: 0 <= i < |x| ==> AgreeField(x[i], y[i])
    case _ => a == b
  }

  ghost predicate AgreeField(f: Field, g: Field) {
    f.key == g.key && (IsSensitive(f.key) || Agree(f.value, g.value))
  }

  /** What stands under sensitive names has no influence on the redacted value. */
  lemma {:induction false} RedactionHides(a: Json, b: Json, depth: nat)
    requires Agree(a, b)
    ensures Redacted(a, depth) == Redacted(b, depth)
    decreases a
  {
    if depth > DEPTH_LIMIT {
    } else {
      match a
      case Arr(x) =>
        forall i | 0 <= i < |FirstFew(x)| ensures Redacted(x[i], depth + 1) == Redacted(b.items[i], depth + 1) {
          RedactionHides(x[i], b.items[i], depth + 1);
        }
      case Obj(x) =>
        forall i | 0 <= i < |x| ensures RedactedField(x[i], depth) == RedactedField(b.fields[i], depth) {
          assert AgreeField(x[i], b.fields[i]);
          if !IsSensitive(x[i].key) { RedactionHides(x[i].value, b.fields[i].value, depth + 1); }
        }
      case _ =>
    }
  }

  // Which names are sensitive.

  /** What the pattern spells out: seven words, and "key" after "api" or "private" with or without a separator. */
  ghost predicate Spelled(s: string) {
    || s in ["password", "passwd", "secret", "token", "authorization", "bearer", "cookie"]
    || exists stem, separator ::
         stem in ["api", "private"] && separator in ["", "_", "-"] && s == stem + separator + "key"
  }

  /** The small letter of a capital one. */
  predicate IsSmall(capital: char, small: char) {
    'A' <= capital <= 'Z' && small as int == capital as int + 32
  }

  predicate AlikeButCase(name: string, spelling: string) {
    |name| == |spelling| && forall i :: 0 <= i < |name| ==> name[i] == spelling[i] || IsSmall(name[i], spelling[i])
  }

  ghost predicate MatchesPattern(name: string) { exists s :: Spelled(s) && AlikeButCase(name, s) }

  predicate NoCapitals(s: string) { forall i :: 0 <= i < |s| ==> !('A' <= s[i] <= 'Z') }

  lemma WordsAreSmall(s: string)
    requires s in ["password", "passwd", "secret", "token", "authorization", "bearer", "cookie"]
    ensures NoCapitals(s)
  {
  }

  lemma KeysAreSmall(stem: string, separator: string)
    requires stem in ["api", "private"] && separator in ["", "_", "-"]
    ensures NoCapitals(stem + separator + "key")
  {
    assert NoCapitals("key") && NoCapitals(stem) && NoCapitals(separator);
  }

  lemma SpelledIsSmall(s: string)
    requires Spelled(s)
    ensures NoCapitals(s)
  {
    if s in ["password", "passwd", "secret", "token", "authorization", "bearer", "cookie"] {
      WordsAreSmall(s);
    } else {
      var stem, separator :| stem in ["api", "private"] && separator in ["", "_", "-"] && s == stem + separator + "key";
      KeysAreSmall(stem, separator);
    }
  }

  lemma KeysAreListed(stem: string, separator: string)
    requires stem in ["api", "private"] && separator in ["", "_", "-"]
    ensures stem + separator + "key" in
      {"apikey", "api_key", "api-key", "privatekey", "private_key", "private-key"}
  {
    if stem == "api" {
      assert stem + separator + "key" ==
        if separator == "" then "apikey" else if separator == "_" then "api_key" else "api-key";
    } else {
      assert stem + separator + "key" ==
        if separator == "" then "privatekey" else if separator == "_" then "private_key" else "private-key";
    }
  }

  lemma ListedKeys(s: string) returns (stem: string, separator: string)
    requires s in {"apikey", "api_key", "api-key", "privatekey", "private_key", "private-key"}
    ensures stem in ["api", "private"] && separator in ["", "_", "-"] && s == stem + separator + "key"
  {
    stem := if s[0] == 'a' then "api" else "private";
    separator := if s[|stem|] == 'k' then "" else [s[|stem|]];
  }

  lemma SpelledIffListed(s: string)
    ensures Spelled(s) <==> s in SENSITIVE_NAMES
  {
    if s in ["password", "passwd", "secret", "token", "authorization", "bearer", "cookie"] {
    } else if s in SENSITIVE_NAMES {
      var stem, separator := ListedKeys(s);
    } else if stem, separator :|
        stem in ["api", "private"] && separator in ["", "_", "-"] && s == stem + separator + "key"
    {
      KeysAreListed(stem, separator);
    }
  }

  lemma LowerIff(name: string, spelling: string)
    requires NoCapitals(spelling)
    ensures Lower(name) == spelling <==> AlikeButCase(name, spelling)
  {
    if |name| == |spelling| {
      forall i | 0 <= i < |name|
        ensures Lower(name)[i] == spelling[i] <==> name[i] == spelling[i] || IsSmall(name[i], spelling[i])
      {
      }
    }
  }

  /** A name is sensitive exactly when it is one of the thirteen spellings, letter by letter in either case. */
  lemma SensitiveIff(name: FieldName)
    ensures IsSensitive(name) <==> MatchesPattern(name.text)
  {
    if IsSensitive(name) {
      var s := Lower(name.text);
      SpelledIffListed(s);
      SpelledIsSmall(s);
      LowerIff(name.text, s);
      assert Spelled(s) && AlikeButCase(name.text, s);
    }
    if s :| Spelled(s) && AlikeButCase(name.text, s) {
      SpelledIsSmall(s);
      LowerIff(name.text, s);
      SpelledIffListed(s);
    }
  }

  /** What stands under a name the pattern matches, in any object above the depth limit, is replaced whatever it
      is; under any other name stands the redaction of what was there. */
  lemma PatternHides(fields: seq<Field>, i: nat, depth: nat)
    requires i < |fields| && depth <= 4
    ensures Redacted(Obj(fields), depth).Obj? && |Redacted(Obj(fields), depth).fields| == |fields|
    ensures Redacted(Obj(fields), depth).fields[i] ==
      Field(fields[i].key,
            if MatchesPattern(fields[i].key.text) then Str("[redacted]") else Redacted(fields[i].value, depth + 1))
  {
    SensitiveIff(fields[i].key);
  }

  /** The marker and the limits in numbers. */
  lemma RedactionLimits(v: Json, text: string, items: seq<Json>, depth: nat)
    ensures depth > 4 ==> Redacted(v, depth) == Str("[…]")
    ensures depth <= 4 && |text| <= 120 ==> Redacted(Str(text), depth) == Str(text)
    ensures depth <= 4 && |text| > 120 ==> Redacted(Str(text), depth) == Str(text[..119] + "…")
    ensures depth <= 4 ==>
      var few := if |items| <= 8 then items else items[..8];
      Redacted(Arr(items), depth) == Arr(seq(|few|, i requires 0 <= i < |few| => Redacted(few[i], depth + 1)))
  {
  }

  /** Within every bound: strings, array lengths, nesting below the depth limit, and nothing under a
      sensitive name. */
  ghost predicate Bounded(v: Json, depth: nat)
    decreases v
  {
    if depth > DEPTH_LIMIT then v == TOO_DEEP
    else match v
      case Str(text) => |text| <= STRING_LIMIT
      case Arr(items) => |items| <= ARRAY_LIMIT && forall i :: 0 <= i < |items| ==> Bounded(items[i], depth + 1)
      case Obj(fields) => forall i :: 0 <= i < |fields| ==> BoundedField(fields[i], depth)
      case _ => true
  }

  ghost predicate BoundedField(f: Field, depth: nat)
    decreases f
  {
    if IsSensitive(f.key) then f.value == HIDDEN else Bounded(f.value, depth + 1)
  }

  lemma {:induction false} RedactedIsBounded(v: Json, depth: nat)
    ensures Bounded(Redacted(v, depth), depth)
    decreases v
  {
    if depth > DEPTH_LIMIT {
    } else {
      match v
      case Arr(items) =>
        forall i | 0 <= i < |FirstFew(items)| ensures Bounded(Redacted(items[i], depth + 1), depth + 1) {
          RedactedIsBounded(items[i], depth + 1);
        }
      case Obj(fields) =>
        forall i | 0 <= i < |fields| ensures BoundedField(RedactedField(fields[i], depth), depth) {
          if !IsSensitive(fields[i].key) { RedactedIsBounded(fields[i].value, depth + 1); }
        }
      case _ =>
    }
  }

  /** Redaction leaves alone exactly the values that are within its bounds. */
  lemma {:induction false} RedactionFixesIff(v: Json, depth: nat)
    ensures Redacted(v, depth) == v <==> Bounded(v, depth)
    decreases v
  {
    if depth > DEPTH_LIMIT {
    } else {
      match v
      case Arr(items) =>
        forall i | 0 <= i < |items|
          ensures Redacted(items[i], depth + 1) == items[i] <==> Bounded(items[i], depth + 1)
        {
          RedactionFixesIff(items[i], depth + 1);
        }
        if Redacted(v, depth) == v {
          forall i | 0 <= i < |items| ensures Bounded(items[i], depth + 1) {
            assert Redacted(v, depth).items[i] == items[i];
          }
        }
      case Obj(fields) =>
        forall i | 0 <= i < |fields|
          ensures RedactedField(fields[i], depth) == fields[i] <==> BoundedField(fields[i], depth)
        {
          RedactionFixesIff(fields[i].value, depth + 1);
        }
        if Redacted(v, depth) == v {
          forall i | 0 <= i < |fields| ensures BoundedField(fields[i], depth) {
            assert Redacted(v, depth).fields[i] == fields[i];
          }
        }
      case _ =>
    }
  }

  lemma RedactionIdempotent(v: Json, depth: nat)
    ensures Redacted(Redacted(v, depth), depth) == Redacted(v, depth)
  {
    RedactedIsBounded(v, depth);
    RedactionFixesIff(Redacted(v, depth), depth);
  }

  /** A step into a value: to an array item or an object's property. */
  datatype Hop = Item(index: nat) | Named(key: FieldName)

  function Follow(v: Json, path: seq<Hop>): Option<Json>
    decreases |path|
  {
    if path == [] then Some(v)
    else match (v, path[0])
      case (Arr(items), Item(i)) => if i < |items| then Follow(items[i], path[1..]) else None
      case (Obj(fields), Named(k)) =>
        if Property(fields, k).Some? then Follow(Property(fields, k).value, path[1..]) else None
      case _ => None
  }

  predicate Visible(path: seq<Hop>) {
    forall h <- path :: match h case Item(i) => i < ARRAY_LIMIT case Named(k) => !IsSensitive(k)
  }

  lemma {:induction false} RedactedProperty(fields: seq<Field>, key: FieldName, depth: nat)
    requires depth <= DEPTH_LIMIT
    ensures Property(Redacted(Obj(fields), depth).fields, key) ==
      match Property(fields, key)
      case None => None
      case Some(v) => Some(if IsSensitive(key) then HIDDEN else Redacted(v, depth + 1))
  {
    if fields == [] {
    } else {
      RedactedProperty(fields[1..], key, depth);
      assert Redacted(Obj(fields), depth).fields[1..] == Redacted(Obj(fields[1..]), depth).fields;
    }
  }

  /** Wherever a path through the first items and the other names leads, the redacted value has there the
      redaction of what is there, and it leads nowhere else. */
  lemma {:induction false} RedactedAt(v: Json, path: seq<Hop>, depth: nat)
    requires Visible(path) && depth + |path| <= DEPTH_LIMIT + 1
    ensures Follow(Redacted(v, depth), path) ==
      match Follow(v, path) case None => None case Some(u) => Some(Redacted(u, depth + |path|))
    decreases |path|
  {
    if path == [] {
    } else {
      assert path[0] in path;
      assert Visible(path[1..]) by { assert forall h <- path[1..] :: h in path; }
      match (v, path[0])
      case (Arr(items), Item(i)) =>
        if i < |items| { RedactedAt(items[i], path[1..], depth + 1); }
      case (Obj(fields), Named(k)) =>
        RedactedProperty(fields, k, depth);
        if Property(fields, k).Some? { RedactedAt(Property(fields, k).value, path[1..], depth + 1); }
      case _ =>
    }
  }

  /** Under a sensitive name stands the marker, and items past the limit are gone. */
  lemma HiddenAt(v: Json, path: seq<Hop>, last: Hop)
    requires Visible(path) && !Visible([last]) && |path| <= DEPTH_LIMIT
    ensures Follow(Redacted(v, 0), path + [last]) ==
      if last.Named? && Follow(v, path + [last]).Some? then Some(HIDDEN) else None
  {
    RedactedAt(v, path, 0);
    FollowSnoc(v, path, last);
    FollowSnoc(Redacted(v, 0), path, last);
    if Follow(v, path).Some? && Follow(v, path).value.Obj? && last.Named? {
      RedactedProperty(Follow(v, path).value.fields, last.key, |path|);
    }
  }

  lemma {:induction false} FollowSnoc(v: Json, path: seq<Hop>, last: Hop)
    ensures Follow(v, path + [last]) ==
      match Follow(v, path) case None => None case Some(u) => Follow(u, [last])
    decreases |path|
  {
    if path == [] {
      assert [] + [last] == [last];
    } else {
      assert (path + [last])[1..] == path[1..] + [last];
      match (v, path[0])
      case (Arr(items), Item(i)) => if i < |items| { FollowSnoc(items[i], path[1..], last); }
      case (Obj(fields), Named(k)) =>
        if Property(fields, k).Some? { FollowSnoc(Property(fields, k).value, path[1..], last); }
      case _ =>
    }
  }

  // Summaries.

  const TO_STRING := FieldName("toString")

  /** A value as text: what `String` gives, with null as the empty string. None stands for the exception an
      object with a property of its own in place of the inherited `toString` causes. */
  function AsString(v: Json): Option<string> {
    match v
    case Null => Some("")
    case Bool(b) => Some(if b then "true" else "false")
    case Num(printed) => Some(printed)
    case Str(text) => Some(text)
    case Arr(items) => Joined(items, |items|)
    case Obj(fields) => if Property(fields, TO_STRING).Some? then None else Some("[object Object]")
  }

  /** The first `n` items as text with commas between. */
  function Joined(items: seq<Json>, n: nat): Option<string>
    requires n <= |items|
    decreases items, n
  {
    if n == 0 then Some("")
    else
      var before, last := Joined(items, n - 1), AsString(items[n - 1]);
      if before.None? || last.None? then None
      else Some(if n == 1 then last.value else before.value + "," + last.value)
  }

  /** An object with its own `toString`, alone or somewhere in nested arrays. */
  ghost predicate Unprintable(v: Json) {
    match v
    case Arr(items) => exists i :: 0 <= i < |items| && Unprintable(items[i])
    case Obj(fields) => exists f <- fields :: f.key == TO_STRING
    case _ => false
  }

  lemma {:induction false} PropertyIff(fields: seq<Field>, key: FieldName)
    ensures Property(fields, key).Some? <==> exists f <- fields :: f.key == key
  {
    if fields == [] {
    } else {
      PropertyIff(fields[1..], key);
      assert fields == [fields[0]] + fields[1..];
    }
  }

  lemma {:induction false} UnprintableIff(v: Json)
    ensures AsString(v).None? <==> Unprintable(v)
    decreases v, 1, 0
  {
    match v
    case Arr(items) => JoinedIff(v, |items|);
    case Obj(fields) => PropertyIff(fields, TO_STRING);
    case _ =>
  }

  lemma {:induction false} JoinedIff(v: Json, n: nat)
    requires v.Arr? && n <= |v.items|
    ensures Joined(v.items, n).None? <==> exists i :: 0 <= i < n && Unprintable(v.items[i])
    decreases v, 0, n
  {
    if n == 0 {
    } else {
      UnprintableIff(v.items[n - 1]);
      JoinedIff(v, n - 1);
    }
  }

  /** A property of an object; null when it has none, as arrays have none of those asked for. */
  function Get(args: Json, key: string): Json {
    if !args.Obj? then Null
    else match Property(args.fields, FieldName(key))
      case Some(v) => v
      case None => Null
  }

  function GetEither(args: Json, key: string, other: string): Json {
    if Get(args, key) != Null then Get(args, key) else Get(args, other)
  }

  /** A length in decimal. */
  function Decimal(n: nat): string {
    (if n < 10 then "" else Decimal(n / 10)) + [(n % 10 + '0' as int) as char]
  }

  /** What the summary of a tool's arguments looks at. */
  datatype Asked =
    | Ingest(title: Json, append: Json, insights: Json)
    | Recall(query: Json, limit: Json, maxDepth: Json)
    | Search(query: Json)
    | Execute(operationId: Json, dryRun: Json)
    | Sql(sql: Json)
    | Cache(operation: Json, key: Json)
    | Anything

  function AskedOf(tool: string, args: Json): Asked {
    if tool == "memory_ingest" then Ingest(Get(args, "title"), Get(args, "append"), Get(args, "insights"))
    else if tool == "memory_recall" then Recall(Get(args, "query"), Get(args, "limit"), Get(args, "maxDepth"))
    else if tool == "search" || tool == "web_search" then Search(Get(args, "query"))
    else if tool == "execute" then Execute(Get(args, "operationId"), GetEither(args, "dry_run", "dryRun"))
    else if tool == "data_query" || tool == "clawql_sql" then Sql(GetEither(args, "sql", "query"))
    else if tool == "cache" then Cache(Get(args, "operation"), Get(args, "key"))
    else Anything
  }

  function Values(a: Asked): seq<Json> {
    match a
    case Ingest(title, append, insights) => [title, append, insights]
    case Recall(query, limit, maxDepth) => [query, limit, maxDepth]
    case Search(query) => [query]
    case Execute(operationId, dryRun) => [operationId, dryRun]
    case Sql(sql) => [sql]
    case Cache(operation, key) => [operation, key]
    case Anything => []
  }

  /** The texts of all values, or None when one of them throws. */
  function TextsOf(values: seq<Json>): (r: Option<seq<string>>)
    ensures r.Some? ==> |r.value| == |values|
  {
    if values == [] then Some([])
    else
      var n := |values| - 1;
      var before, last := TextsOf(values[..n]), AsString(values[n]);
      if before.None? || last.None? then None else Some(before.value + [last.value])
  }

  /** None stands for an exception. */
  function Summary(tool: string, args: Json, stringify: Json -> string): Option<string> {
    if !args.Arr? && !args.Obj? then Some("")
    else
      var texts := TextsOf(Values(AskedOf(tool, args)));
      if texts.None? then None else Some(Line(AskedOf(tool, args), texts.value, stringify(Redacted(args, 0))))
  }

  function Line(a: Asked, t: seq<string>, redacted: string): string
    requires |t| == |Values(a)|
  {
    match a
    case Ingest(_, _, _) => "title=" + Truncate(t[0], 80) + " append=" + t[1] + " insightsChars=" + Decimal(|t[2]|)
    case Recall(_, _, _) => "query=" + Truncate(t[0], 80) + " limit=" + t[1] + " maxDepth=" + t[2]
    case Search(_) => "query=" + Truncate(t[0], 80)
    case Execute(_, _) => "operationId=" + Truncate(t[0], 80) + " dry_run=" + t[1]
    case Sql(_) => "sqlChars=" + Decimal(|t[0]|)
    case Cache(_, _) => "operation=" + t[0] + " key=" + Truncate(t[1], 80)
    case Anything => Truncate(redacted, 400)
  }

  // What the summaries say.

  /** How values print: null as nothing, arrays as their items with commas between. */
  lemma Prints(text: string, number: string, b: bool, fields: seq<Field>)
    requires Property(fields, TO_STRING).None?
    ensures AsString(Null) == Some("") && AsString(Bool(b)) == Some(Word(b))
    ensures AsString(Num(number)) == Some(number) && AsString(Str(text)) == Some(text)
    ensures AsString(Obj(fields)) == Some("[object Object]")
    ensures AsString(Arr([])) == Some("")
    ensures AsString(Arr([Str(text), Null, Num(number)])) == Some(text + "," + "" + "," + number)
  {
    var items := [Str(text), Null, Num(number)];
    assert Joined(items, 0) == Some("");
    assert Joined(items, 1) == Some(text);
    assert Joined(items, 2) == Some(text + "," + "");
    assert Joined(items, 3) == Some(text + "," + "" + "," + number);
  }

  function Word(b: bool): string { if b then "true" else "false" }

  function NumberIn(digits: string): int {
    if digits == "" then 0
    else
      var n := |digits| - 1;
      10 * NumberIn(digits[..n]) + (digits[n] as int - '0' as int)
  }

  /** The decimal of a number reads back as it and has no leading zero. */
  lemma {:induction false} DecimalReadsBack(n: nat)
    ensures var s := Decimal(n);
      && NumberIn(s) == n && s != ""
      && (forall i :: 0 <= i < |s| ==> '0' <= s[i] <= '9') && (s[0] == '0' ==> s == "0")
  {
    var s := Decimal(n);
    assert s[|s| - 1] as int - '0' as int == n % 10;
    if n < 10 {
      assert s[..|s| - 1] == "";
    } else {
      DecimalReadsBack(n / 10);
      assert s[..|s| - 1] == Decimal(n / 10);
    }
  }

  ghost predicate Has(args: Json, key: string, v: Json) {
    args.Obj? && Property(args.fields, FieldName(key)) == Some(v)
  }

  /** An absent property and one that is null print alike. */
  ghost predicate Lacks(args: Json, key: string) {
    args.Obj? && (Property(args.fields, FieldName(key)).None? || Has(args, key, Null))
  }

  lemma {:induction false} ValueTexts(values: seq<Json>, texts: seq<string>)
    requires |values| == |texts| && forall i :: 0 <= i < |values| ==> AsString(values[i]) == Some(texts[i])
    ensures TextsOf(values) == Some(texts)
  {
    if values == [] {
    } else {
      var n := |values| - 1;
      ValueTexts(values[..n], texts[..n]);
      assert texts == texts[..n] + [texts[n]];
    }
  }

  lemma GetIs(args: Json, key: string, v: Json)
    requires Has(args, key, v) || (v == Null && Lacks(args, key))
    ensures args.Obj? && Get(args, key) == v
  {
  }

  lemma GetEitherIs(args: Json, key: string, other: string, v: Json)
    requires v != Null && (Has(args, key, v) || (Lacks(args, key) && Has(args, other, v)))
    ensures args.Obj? && GetEither(args, key, other) == v
  {
  }

  lemma OneText(x: Json, a: string)
    requires AsString(x) == Some(a)
    ensures TextsOf([x]) == Some([a])
  {
    ValueTexts([x], [a]);
  }

  lemma TwoTexts(x: Json, a: string, y: Json, b: string)
    requires AsString(x) == Some(a) && AsString(y) == Some(b)
    ensures TextsOf([x, y]) == Some([a, b])
  {
    ValueTexts([x, y], [a, b]);
  }

  lemma ThreeTexts(x: Json, a: string, y: Json, b: string, z: Json, c: string)
    requires AsString(x) == Some(a) && AsString(y) == Some(b) && AsString(z) == Some(c)
    ensures TextsOf([x, y, z]) == Some([a, b, c])
  {
    ValueTexts([x, y, z], [a, b, c]);
  }

  /** What the tool asks for, and what becomes of its texts. */
  lemma AskedSays(tool: string, args: Json, asked: Asked, texts: seq<string>, stringify: Json -> string)
    requires args.Obj? && AskedOf(tool, args) == asked && TextsOf(Values(asked)) == Some(texts)
    ensures Summary(tool, args, stringify) == Some(Line(asked, texts, stringify(Redacted(args, 0))))
  {
  }

  lemma IngestLine(title: string, append: bool, insights: string, redacted: string)
    ensures Line(Ingest(Str(title), Bool(append), Str(insights)), [title, Word(append), insights], redacted) ==
      "title=" + Truncate(title, 80) + " append=" + Word(append) + " insightsChars=" + Decimal(|insights|)
  {
  }

  lemma IngestAsked(args: Json, title: string, append: bool, insights: string)
    requires Has(args, "title", Str(title)) && Has(args, "append", Bool(append)) && Has(args, "insights", Str(insights))
    ensures args.Obj? && AskedOf("memory_ingest", args) == Ingest(Str(title), Bool(append), Str(insights))
  {
    GetIs(args, "title", Str(title));
    GetIs(args, "append", Bool(append));
    GetIs(args, "insights", Str(insights));
  }

  lemma IngestSummary(tool: string, args: Json, title: string, append: bool, insights: string, line: string,
          stringify: Json -> string)
    requires args.Obj? && AskedOf(tool, args) == Ingest(Str(title), Bool(append), Str(insights))
    requires Line(Ingest(Str(title), Bool(append), Str(insights)), [title, Word(append), insights],
                  stringify(Redacted(args, 0))) == line
    ensures Summary(tool, args, stringify) == Some(line)
  {
    ThreeTexts(Str(title), title, Bool(append), Word(append), Str(insights), insights);
    AskedSays(tool, args, Ingest(Str(title), Bool(append), Str(insights)), [title, Word(append), insights], stringify);
  }

  lemma IngestSays(args: Json, title: string, append: bool, insights: string, count: string,
          stringify: Json -> string)
    requires count == Decimal(|insights|)
    requires Has(args, "title", Str(title)) && Has(args, "append", Bool(append)) && Has(args, "insights", Str(insights))
    ensures Summary("memory_ingest", args, stringify) ==
      Some("title=" + Truncate(title, 80) + " append=" + Word(append) + " insightsChars=" + count)
  {
    IngestAsked(args, title, append, insights);
    IngestLine(title, append, insights, stringify(Redacted(args, 0)));
    IngestSummary("memory_ingest", args, title, append, insights,
                  "title=" + Truncate(title, 80) + " append=" + Word(append) + " insightsChars=" + count, stringify);
  }

  lemma RecallSays(args: Json, query: string, limit: string, depth: string, stringify: Json -> string)
    requires Has(args, "query", Str(query)) && Has(args, "limit", Num(limit)) && Has(args, "maxDepth", Num(depth))
    ensures Summary("memory_recall", args, stringify) ==
      Some("query=" + Truncate(query, 80) + " limit=" + limit + " maxDepth=" + depth)
  {
    GetIs(args, "query", Str(query));
    GetIs(args, "limit", Num(limit));
    GetIs(args, "maxDepth", Num(depth));
    ThreeTexts(Str(query), query, Num(limit), limit, Num(depth), depth);
    AskedSays("memory_recall", args, Recall(Str(query), Num(limit), Num(depth)), [query, limit, depth], stringify);
  }

  /** A recall without limits has nothing after their names. */
  lemma PlainRecallSays(args: Json, query: string, stringify: Json -> string)
    requires Has(args, "query", Str(query)) && Lacks(args, "limit") && Lacks(args, "maxDepth")
    ensures Summary("memory_recall", args, stringify) ==
      Some("query=" + Truncate(query, 80) + " limit=" + "" + " maxDepth=" + "")
  {
    GetIs(args, "query", Str(query));
    GetIs(args, "limit", Null);
    GetIs(args, "maxDepth", Null);
    ThreeTexts(Str(query), query, Null, "", Null, "");
    AskedSays("memory_recall", args, Recall(Str(query), Null, Null), [query, "", ""], stringify);
  }

  lemma SearchSays(tool: string, args: Json, query: string, stringify: Json -> string)
    requires tool == "search" || tool == "web_search"
    requires Has(args, "query", Str(query))
    ensures Summary(tool, args, stringify) == Some("query=" + Truncate(query, 80))
  {
    GetIs(args, "query", Str(query));
    OneText(Str(query), query);
    AskedSays(tool, args, Search(Str(query)), [query], stringify);
  }

  lemma ExecuteSays(args: Json, id: string, dryRun: bool, stringify: Json -> string)
    requires Has(args, "operationId", Str(id))
    requires Has(args, "dry_run", Bool(dryRun)) || (Lacks(args, "dry_run") && Has(args, "dryRun", Bool(dryRun)))
    ensures Summary("execute", args, stringify) == Some("operationId=" + Truncate(id, 80) + " dry_run=" + Word(dryRun))
  {
    GetIs(args, "operationId", Str(id));
    GetEitherIs(args, "dry_run", "dryRun", Bool(dryRun));
    TwoTexts(Str(id), id, Bool(dryRun), Word(dryRun));
    AskedSays("execute", args, Execute(Str(id), Bool(dryRun)), [id, Word(dryRun)], stringify);
  }

  lemma SqlLine(sql: string, redacted: string)
    ensures Line(Sql(Str(sql)), [sql], redacted) == "sqlChars=" + Decimal(|sql|)
  {
  }

  lemma SqlAsked(tool: string, args: Json, sql: string)
    requires tool == "data_query" || tool == "clawql_sql"
    requires Has(args, "sql", Str(sql)) || (Lacks(args, "sql") && Has(args, "query", Str(sql)))
    ensures args.Obj? && AskedOf(tool, args) == Sql(Str(sql))
  {
    GetEitherIs(args, "sql", "query", Str(sql));
  }

  lemma SqlSummary(tool: string, args: Json, sql: string, line: string, stringify: Json -> string)
    requires args.Obj? && AskedOf(tool, args) == Sql(Str(sql))
    requires Line(Sql(Str(sql)), [sql], stringify(Redacted(args, 0))) == line
    ensures Summary(tool, args, stringify) == Some(line)
  {
    OneText(Str(sql), sql);
    AskedSays(tool, args, Sql(Str(sql)), [sql], stringify);
  }

  lemma SqlSays(tool: string, args: Json, sql: string, count: string, stringify: Json -> string)
    requires count == Decimal(|sql|)
    requires tool == "data_query" || tool == "clawql_sql"
    requires Has(args, "sql", Str(sql)) || (Lacks(args, "sql") && Has(args, "query", Str(sql)))
    ensures Summary(tool, args, stringify) == Some("sqlChars=" + count)
  {
    SqlAsked(tool, args, sql);
    SqlLine(sql, stringify(Redacted(args, 0)));
    SqlSummary(tool, args, sql, "sqlChars=" + count, stringify);
  }

  lemma CacheSays(args: Json, operation: string, key: string, stringify: Json -> string)
    requires Has(args, "operation", Str(operation)) && Has(args, "key", Str(key))
    ensures Summary("cache", args, stringify) == Some("operation=" + operation + " key=" + Truncate(key, 80))
  {
    GetIs(args, "operation", Str(operation));
    GetIs(args, "key", Str(key));
    TwoTexts(Str(operation), operation, Str(key), key);
    AskedSays("cache", args, Cache(Str(operation), Str(key)), [operation, key], stringify);
  }

  /** Any other tool is summarized by its redacted arguments; arguments that are neither object nor array by
      nothing. */
  lemma OthersSay(tool: string, args: Json, stringify: Json -> string)
    requires tool !in {"memory_ingest", "memory_recall", "search", "web_search", "execute", "data_query",
                       "clawql_sql", "cache"}
    ensures Summary(tool, args, stringify) ==
      Some(if args.Obj? || args.Arr? then Truncate(stringify(Redacted(args, 0)), 400) else "")
  {
  }

  lemma {:induction false} TextsIff(values: seq<Json>)
    ensures TextsOf(values).None? <==> exists v <- values :: Unprintable(v)
  {
    if values == [] {
    } else {
      var n := |values| - 1;
      TextsIff(values[..n]);
      UnprintableIff(values[n]);
      assert values == values[..n] + [values[n]];
    }
  }

  /** Summarizing throws exactly when one of the values it prints is an object with its own `toString`, alone
      or in nested arrays; for tools without a summary of their own it never does. */
  lemma SummaryThrowsIff(tool: string, args: Json, stringify: Json -> string)
    ensures Summary(tool, args, stringify).None? <==>
      (args.Arr? || args.Obj?) && exists v <- Values(AskedOf(tool, args)) :: Unprintable(v)
  {
    TextsIff(Values(AskedOf(tool, args)));
  }

  /** A title that is an object with its own `toString` makes the summary of an ingest throw; in another tool's
      arguments it does not. */
  lemma SummaryThrows(stringify: Json -> string)
    ensures var args := Obj([Field(FieldName("title"), Obj([Field(TO_STRING, Null)]))]);
      Summary("memory_ingest", args, stringify).None? && Summary("skills_list", args, stringify).Some?
  {
    var title := Obj([Field(TO_STRING, Null)]);
    var args := Obj([Field(FieldName("title"), title)]);
    assert title.fields[0] in title.fields && Unprintable(title);
    assert Get(args, "title") == title;
    assert Values(AskedOf("memory_ingest", args))[0] == title;
    SummaryThrowsIff("memory_ingest", args, stringify);
    SummaryThrowsIff("skills_list", args, stringify);
  }

  lemma {:induction false} AgreeSameText(a: Json, b: Json)
    requires Agree(a, b)
    ensures AsString(a) == AsString(b)
    decreases a, 1, 0
  {
    if a.Arr? { AgreeSameJoin(a, b, |a.items|); }
    if a.Obj? { AgreeSameNames(a.fields, b.fields, TO_STRING); }
  }

  lemma {:induction false} AgreeSameJoin(a: Json, b: Json, n: nat)
    requires a.Arr? && b.Arr? && Agree(a, b) && n <= |a.items|
    ensures Joined(a.items, n) == Joined(b.items, n)
    decreases a, 0, n
  {
    if n == 0 {
    } else {
      AgreeSameText(a.items[n - 1], b.items[n - 1]);
      AgreeSameJoin(a, b, n - 1);
    }
  }

  lemma {:induction false} AgreeSameNames(x: seq<Field>, y: seq<Field>, key: FieldName)
    requires |x| == |y| && forall i :: 0 <= i < |x| ==> AgreeField(x[i], y[i])
    ensures Property(x, key).Some? <==> Property(y, key).Some?
  {
    if x == [] {
    } else {
      assert AgreeField(x[0], y[0]);
      AgreeSameNames(x[1..], y[1..], key);
    }
  }

  lemma {:induction false} AgreeSameProperty(x: seq<Field>, y: seq<Field>, key: FieldName)
    requires |x| == |y| && !IsSensitive(key)
    requires forall i :: 0 <= i < |x| ==> AgreeField(x[i], y[i])
    ensures match (Property(x, key), Property(y, key)) case (Some(v), Some(w)) => Agree(v, w) case (p, q) => p == q
  {
    if x == [] {
    } else {
      assert AgreeField(x[0], y[0]);
      if x[0].key != key { AgreeSameProperty(x[1..], y[1..], key); }
    }
  }

  lemma AgreeSameGet(a: Json, b: Json, key: string)
    requires Agree(a, b) && !IsSensitive(FieldName(key))
    ensures SameText(Get(a, key), Get(b, key)) && Agree(Get(a, key), Get(b, key))
  {
    if a.Obj? { AgreeSameProperty(a.fields, b.fields, FieldName(key)); }
    AgreeSameText(Get(a, key), Get(b, key));
  }

  ghost predicate SameText(v: Json, w: Json) { AsString(v) == AsString(w) && (v == Null <==> w == Null) }

  ghost predicate SameTexts(x: seq<Json>, y: seq<Json>) {
    |x| == |y| && forall i :: 0 <= i < |x| ==> SameText(x[i], y[i])
  }

  lemma {:induction false} SameTextsOf(x: seq<Json>, y: seq<Json>)
    requires SameTexts(x, y)
    ensures TextsOf(x) == TextsOf(y)
  {
    if x == [] {
    } else {
      var n := |x| - 1;
      SameTextsOf(x[..n], y[..n]);
      assert SameText(x[n], y[n]);
    }
  }

  /** How sensitive names begin. */
  lemma SensitiveNamesBegin(name: FieldName)
    requires IsSensitive(name)
    ensures var s := Lower(name.text);
      && |s| >= 5 && s[0] in "abcpst"
      && (s[0] == 't' ==> s[1] == 'o') && (s[0] == 'a' ==> s[2] != 'p') && (s[0] == 'c' ==> |s| == 6)
  {
  }

  /** None of the properties asked for is a sensitive one. */
  lemma AskedNamesAreNotSensitive()
    ensures forall key <- ASKED :: !IsSensitive(FieldName(key))
  {
    forall key <- ASKED ensures !IsSensitive(FieldName(key)) {
      if IsSensitive(FieldName(key)) { SensitiveNamesBegin(FieldName(key)); }
    }
  }

  const ASKED := [
    "title", "append", "insights", "query", "limit", "maxDepth", "operationId", "dry_run", "dryRun", "sql",
    "operation", "key", "correlationId"
  ]

  lemma AskedName(i: nat)
    requires i < |ASKED|
    ensures !IsSensitive(FieldName(ASKED[i]))
  {
    AskedNamesAreNotSensitive();
  }

  lemma AgreeSameAt(a: Json, b: Json, i: nat)
    requires Agree(a, b) && i < |ASKED|
    ensures SameText(Get(a, ASKED[i]), Get(b, ASKED[i]))
  {
    AskedName(i);
    AgreeSameGet(a, b, ASKED[i]);
  }

  /** The values two agreeing arguments are summarized by are of one kind and print alike. */
  ghost predicate SameAsked(x: Asked, y: Asked) {
    && SameTexts(Values(x), Values(y))
    && match (x, y)
       case (Ingest(_, _, _), Ingest(_, _, _)) => true
       case (Recall(_, _, _), Recall(_, _, _)) => true
       case (Search(_), Search(_)) => true
       case (Execute(_, _), Execute(_, _)) => true
       case (Sql(_), Sql(_)) => true
       case (Cache(_, _), Cache(_, _)) => true
       case (Anything, Anything) => true
       case _ => false
  }

  lemma AgreeSameMemory(tool: string, a: Json, b: Json)
    requires Agree(a, b) && tool in {"memory_ingest", "memory_recall", "search", "web_search"}
    ensures SameAsked(AskedOf(tool, a), AskedOf(tool, b))
  {
    AgreeSameAt(a, b, 0);
    AgreeSameAt(a, b, 1);
    AgreeSameAt(a, b, 2);
    AgreeSameAt(a, b, 3);
    AgreeSameAt(a, b, 4);
    AgreeSameAt(a, b, 5);
  }

  lemma AgreeSameExecute(a: Json, b: Json)
    requires Agree(a, b)
    ensures SameAsked(AskedOf("execute", a), AskedOf("execute", b))
  {
    AgreeSameAt(a, b, 6);
    AgreeSameAt(a, b, 7);
    AgreeSameAt(a, b, 8);
  }

  lemma AgreeSameSql(tool: string, a: Json, b: Json)
    requires Agree(a, b) && tool in {"data_query", "clawql_sql"}
    ensures SameAsked(AskedOf(tool, a), AskedOf(tool, b))
  {
    AgreeSameAt(a, b, 9);
    AgreeSameAt(a, b, 3);
  }

  lemma AgreeSameRest(tool: string, a: Json, b: Json)
    requires Agree(a, b)
    requires tool !in {"memory_ingest", "memory_recall", "search", "web_search", "execute", "data_query", "clawql_sql"}
    ensures SameAsked(AskedOf(tool, a), AskedOf(tool, b))
  {
    AgreeSameAt(a, b, 10);
    AgreeSameAt(a, b, 11);
  }

  lemma AgreeSameCorrelation(a: Json, b: Json)
    requires Agree(a, b)
    ensures CorrelationId(a) == CorrelationId(b)
  {
    assert ASKED[12] == "correlationId";
    AskedNamesAreNotSensitive();
    AgreeSameGet(a, b, "correlationId");
  }

  /** The summary of any tool's arguments does not depend on what stands under sensitive names. */
  lemma SummaryHides(tool: string, a: Json, b: Json, stringify: Json -> string)
    requires Agree(a, b)
    ensures Summary(tool, a, stringify) == Summary(tool, b, stringify)
  {
    if tool in {"memory_ingest", "memory_recall", "search", "web_search"} {
      AgreeSameMemory(tool, a, b);
    } else if tool == "execute" {
      AgreeSameExecute(a, b);
    } else if tool in {"data_query", "clawql_sql"} {
      AgreeSameSql(tool, a, b);
    } else {
      AgreeSameRest(tool, a, b);
    }
    SameTextsOf(Values(AskedOf(tool, a)), Values(AskedOf(tool, b)));
    RedactionHides(a, b, 0);
  }

  // The record.

  datatype Outcome = Ok | Error | Blocked | PaymentRequired | Thrown

  function OutcomeText(o: Outcome): string {
    match o
    case Ok => "ok"
    case Error => "error"
    case Blocked => "blocked"
    case PaymentRequired => "payment_required"
    case Thrown => "thrown"
  }

  datatype Event = Event(toolName: string, args: Json, outcome: Outcome, result: Json, errorMessage: string)

  datatype Append = Append(action: string, summary: string, correlationId: Option<string>)

  function ResultSnippet(result: Json): string {
    var err := if Get(result, "isError") == Bool(true) then " isError=true" else "";
    var content := Get(result, "content");
    if !content.Arr? || content.items == [] then err
    else
      var text := Get(content.items[0], "text");
      err + " resultChars=" + Decimal(if text.Str? then |text.text| else 0)
  }

  function CorrelationId(args: Json): Option<string> {
    var c := Get(args, "correlationId");
    if c.Str? && Trim(c.text) != "" then Some(Truncate(Trim(c.text), 128)) else None
  }

  function ErrorPart(message: string): string {
    if message == "" then "" else " error=" + Truncate(message, 80)
  }

  function SummaryLine(e: Event, summary: string): string {
    Truncate(Trim(OutcomeText(e.outcome) + " "
                  + (summary + ResultSnippet(e.result) + ErrorPart(e.errorMessage))), 512)
  }

  datatype Built = NoRecord | Throws | Record(append: Append)

  function BuildAppend(enabled: bool, e: Event, stringify: Json -> string): Built {
    var toolName := Trim(e.toolName);
    if !enabled || toolName == "" || toolName == "audit" then NoRecord
    else match Summary(toolName, e.args, stringify)
      case None => Throws
      case Some(argsPart) =>
        var summary := SummaryLine(e, argsPart);
        Record(Append(Truncate(toolName, 128), if summary != "" then summary else OutcomeText(e.outcome),
                      CorrelationId(e.args)))
  }

  /** Equal except for the characters of strings, whose number is equal. */
  ghost predicate SameShape(a: Json, b: Json) {
    match (a, b)
    case (Str(s), Str(t)) => |s| == |t|
    case (Arr(x), Arr(y)) => |x| == |y| && forall i :: 0 <= i < |x| ==> SameShape(x[i], y[i])
    case (Obj(x), Obj(y)) => |x| == |y| && forall i :: 0 <= i < |x| ==> SameShapeField(x[i], y[i])
    case _ => a == b
  }

  ghost predicate SameShapeField(f: Field, g: Field) {
    f.key == g.key && SameShape(f.value, g.value)
  }

  lemma {:induction false} SameShapeProperty(x: seq<Field>, y: seq<Field>, key: FieldName)
    requires |x| == |y| && forall i :: 0 <= i < |x| ==> SameShapeField(x[i], y[i])
    ensures match (Property(x, key), Property(y, key)) case (Some(v), Some(w)) => SameShape(v, w) case (p, q) => p == q
  {
    if x == [] {
    } else {
      assert SameShapeField(x[0], y[0]);
      if x[0].key != key { SameShapeProperty(x[1..], y[1..], key); }
    }
  }

  lemma SameShapeGet(a: Json, b: Json, key: string)
    requires SameShape(a, b)
    ensures SameShape(Get(a, key), Get(b, key))
  {
    if a.Obj? { SameShapeProperty(a.fields, b.fields, FieldName(key)); }
  }

  lemma SnippetHides(a: Json, b: Json)
    requires SameShape(a, b)
    ensures ResultSnippet(a) == ResultSnippet(b)
  {
    SameShapeGet(a, b, "isError");
    SameShapeGet(a, b, "content");
    var x, y := Get(a, "content"), Get(b, "content");
    if x.Arr? && x.items != [] {
      SameShapeGet(x.items[0], y.items[0], "text");
    }
  }

  /** No character of a value under a sensitive argument name, and none of the result's text, reaches the
      record. */
  lemma RecordHides(enabled: bool, e: Event, other: Event, stringify: Json -> string)
    requires e.toolName == other.toolName && e.outcome == other.outcome && e.errorMessage == other.errorMessage
    requires Agree(e.args, other.args) && SameShape(e.result, other.result)
    ensures BuildAppend(enabled, e, stringify) == BuildAppend(enabled, other, stringify)
  {
    SummaryHides(Trim(e.toolName), e.args, other.args, stringify);
    SnippetHides(e.result, other.result);
    AgreeSameCorrelation(e.args, other.args);
  }

  lemma {:induction false} TrimEndKeeps(s: string, prefix: string)
    requires prefix != "" && prefix <= s && !IsSpace(prefix[|prefix| - 1])
    ensures prefix <= TrimEnd(s)
  {
    if !IsSpace(s[|s| - 1]) {
    } else {
      assert |prefix| < |s|;
      TrimEndKeeps(s[..|s| - 1], prefix);
    }
  }

  lemma OutcomeIsPlain(o: Outcome)
    ensures 2 <= |OutcomeText(o)| <= 16
    ensures !IsSpace(OutcomeText(o)[0]) && !IsSpace(OutcomeText(o)[|OutcomeText(o)| - 1])
  {
  }

  lemma TrimKeeps(s: string)
    requires IsTrimmed(s)
    ensures Trim(s) == s
  {
  }

  lemma LineFits(o: Outcome, rest: string)
    requires rest != "" && !IsSpace(rest[|rest| - 1])
    ensures Trim(OutcomeText(o) + " " + rest) == OutcomeText(o) + " " + rest
  {
    var line := OutcomeText(o) + " " + rest;
    OutcomeIsPlain(o);
    assert line[0] == OutcomeText(o)[0] && line[|line| - 1] == rest[|rest| - 1];
    TrimKeeps(line);
  }

  lemma SnippetSays(result: Json, content: Json, text: string, failed: bool)
    requires Has(result, "content", Arr([content])) && Has(content, "text", Str(text))
    requires if failed then Has(result, "isError", Bool(true)) else Lacks(result, "isError")
    ensures ResultSnippet(result) == (if failed then " isError=true" else "") + " resultChars=" + Decimal(|text|)
  {
  }

  lemma CorrelationSays(args: Json, id: Option<string>)
    requires if id.Some? then Has(args, "correlationId", Str(id.value)) else Lacks(args, "correlationId")
    ensures CorrelationId(args) ==
      if id.Some? && Trim(id.value) != "" then Some(Truncate(Trim(id.value), 128)) else None
  {
  }

  lemma RecordLine(e: Event, summary: string, said: string, stringify: Json -> string)
    requires Trim(e.toolName) !in {"", "audit"}
    requires Summary(Trim(e.toolName), e.args, stringify) == Some(summary)
    requires said == summary + ResultSnippet(e.result) + ErrorPart(e.errorMessage)
    requires said != "" && !IsSpace(said[|said| - 1])
    ensures BuildAppend(true, e, stringify) ==
      Record(Append(Truncate(Trim(e.toolName), 128), Truncate(OutcomeText(e.outcome) + " " + said, 512),
                    CorrelationId(e.args)))
  {
    LineFits(e.outcome, said);
    OutcomeIsPlain(e.outcome);
  }

  lemma DigitsAreNotSpace()
    ensures forall c: char :: '0' <= c <= '9' ==> !IsSpace(c)
  {
  }

  lemma CountEnds(n: nat)
    ensures Decimal(n) != "" && !IsSpace(Decimal(n)[|Decimal(n)| - 1])
  {
    DecimalReadsBack(n);
    DigitsAreNotSpace();
  }

  lemma SaidEnds(front: string, count: string, message: string)
    requires count != "" && !IsSpace(count[|count| - 1])
    requires IsTrimmed(Truncate(message, 80))
    ensures var said := front + count + ErrorPart(message);
      && said != "" && !IsSpace(said[|said| - 1])
      && ErrorPart(message) == if message == "" then "" else " error=" + Truncate(message, 80)
  {
  }

  /** What a record says after the outcome. */
  function Said(summary: string, failed: bool, chars: nat, message: string): string {
    summary + ((if failed then " isError=true" else "") + " resultChars=" + Decimal(chars))
    + if message == "" then "" else " error=" + Truncate(message, 80)
  }

  lemma SaidIs(summary: string, failed: bool, chars: nat, message: string)
    requires IsTrimmed(Truncate(message, 80))
    ensures var said := Said(summary, failed, chars, message);
      && said != "" && !IsSpace(said[|said| - 1])
      && said == summary + ((if failed then " isError=true" else "") + " resultChars=" + Decimal(chars))
                 + ErrorPart(message)
  {
    CountEnds(chars);
    var front := (if failed then " isError=true" else "") + " resultChars=";
    SaidEnds(summary + front, Decimal(chars), message);
    assert summary + (front + Decimal(chars)) == summary + front + Decimal(chars);
  }

  /** The record of a call with one text in its result: the outcome, the summary of the arguments, the length of
      the text, and the error, cut to what fits. */
  lemma RecordSays(e: Event, summary: string, content: Json, text: string, failed: bool, id: Option<string>,
          stringify: Json -> string)
    requires Trim(e.toolName) !in {"", "audit"}
    requires Summary(Trim(e.toolName), e.args, stringify) == Some(summary)
    requires Has(e.result, "content", Arr([content])) && Has(content, "text", Str(text))
    requires if failed then Has(e.result, "isError", Bool(true)) else Lacks(e.result, "isError")
    requires if id.Some? then Has(e.args, "correlationId", Str(id.value)) else Lacks(e.args, "correlationId")
    requires IsTrimmed(Truncate(e.errorMessage, 80))
    ensures var said := Said(summary, failed, |text|, e.errorMessage);
      BuildAppend(true, e, stringify) ==
        Record(Append(Truncate(Trim(e.toolName), 128), Truncate(OutcomeText(e.outcome) + " " + said, 512),
                      if id.Some? && Trim(id.value) != "" then Some(Truncate(Trim(id.value), 128)) else None))
  {
    SnippetSays(e.result, content, text, failed);
    CorrelationSays(e.args, id);
    SaidIs(summary, failed, |text|, e.errorMessage);
    var said := Said(summary, failed, |text|, e.errorMessage);
    RecordLine(e, summary, said, stringify);
  }

  /** Enabled auditing of a named tool other than `audit` makes a record or throws, and throws exactly when the
      summary does. Records are within their bounds and say the outcome first, so the fallback for an empty
      summary is never taken. */
  lemma RecordBounds(enabled: bool, e: Event, stringify: Json -> string)
    ensures BuildAppend(enabled, e, stringify).NoRecord? <==> !enabled || Trim(e.toolName) in {"", "audit"}
    ensures BuildAppend(enabled, e, stringify).Throws? <==>
      enabled && Trim(e.toolName) !in {"", "audit"} && (e.args.Arr? || e.args.Obj?)
      && exists v <- Values(AskedOf(Trim(e.toolName), e.args)) :: Unprintable(v)
    ensures BuildAppend(enabled, e, stringify).Record? ==>
      var r := BuildAppend(enabled, e, stringify).append;
      && 1 <= |r.action| <= 128
      && |r.summary| <= 512 && OutcomeText(e.outcome) <= r.summary
      && (r.correlationId.Some? ==> 1 <= |r.correlationId.value| <= 128)
  {
    SummaryThrowsIff(Trim(e.toolName), e.args, stringify);
    if Summary(Trim(e.toolName), e.args, stringify).Some? {
      OutcomeComesFirst(e.outcome, Summary(Trim(e.toolName), e.args, stringify).value
                                   + ResultSnippet(e.result) + ErrorPart(e.errorMessage));
    }
  }

  lemma OutcomeComesFirst(o: Outcome, rest: string)
    ensures OutcomeText(o) != "" && OutcomeText(o) <= Truncate(Trim(OutcomeText(o) + " " + rest), 512)
  {
    var text := OutcomeText(o);
    OutcomeIsPlain(o);
    var line := text + " " + rest;
    assert line[0] == text[0];
    assert TrimStart(line) == line;
    TrimEndKeeps(line, text);
  }
}

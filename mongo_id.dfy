/**
 * The identity of a requested Mongo container (`MongoContainerId`): five
 * fields rendered into a fixed JSON template, computed once and cached. The
 * string fields are inserted verbatim, without escaping.
 */
module MongoIds {
  import Text
  import opened Wrappers

  datatype MongoContainerId = MongoContainerId(
    rootProjectName: string,
    imageName: string,
    databaseName: string,
    reuseBetweenBuilds: bool,
    newDatabaseForEachTask: bool)

  /** `%s` of a boolean. */
  function BoolText(b: bool): (r: string)
    ensures |r| >= 1 && (r[0] == 't' <==> b)
  {
    if b then "true" else "false"
  }

  /** The template's text around the five fields; each string field is closed by a quote. */
  datatype Template = Template(
    head: string, afterRoot: string, afterImage: string, afterDatabase: string, afterReuse: string)

  /** `JSON_TEMPLATE`: the field names in their fixed order. */
  const JsonTemplate: Template := Template(
    "{\"rootProjectName\":\"",
    ",\"imageName\":\"",
    ",\"databaseName\":\"",
    ",\"reuseBetweenBuilds\":",
    ",\"newDatabaseForEachTask\":")

  /** The booleans and the closing brace that end the document. */
  function Tail(t: Template, reuse: bool, newDb: bool): string
  {
    BoolText(reuse) + (t.afterReuse + (BoolText(newDb) + "}"))
  }

  /** A string field closed by its quote, then what follows. */
  function Quoted(field: string, rest: string): string
  {
    field + ("\"" + rest)
  }

  /** The template filled in: string fields verbatim between quotes, booleans bare. */
  function Render(t: Template, id: MongoContainerId): (s: string)
    ensures Text.StartsWith(s, t.head)
  {
    var s := t.head + Quoted(id.rootProjectName, RootRest(t, id));
    assert s[..|t.head|] == t.head;
    s
  }

  /** What follows the root project name's closing quote. */
  function RootRest(t: Template, id: MongoContainerId): string
  {
    t.afterRoot + Quoted(id.imageName, ImageRest(t, id))
  }

  /** What follows the image name's closing quote. */
  function ImageRest(t: Template, id: MongoContainerId): string
  {
    t.afterImage + Quoted(id.databaseName, DatabaseRest(t, id))
  }

  /** What follows the database name's closing quote. */
  function DatabaseRest(t: Template, id: MongoContainerId): string
  {
    t.afterDatabase + Tail(t, id.reuseBetweenBuilds, id.newDatabaseForEachTask)
  }

  /** `String.format(JSON_TEMPLATE, ...)`. */
  function Json(id: MongoContainerId): string
  {
    Render(JsonTemplate, id)
  }

  /** Each field appears in the rendering after its own name, strings between quotes. */
  lemma RenderFields(t: Template, id: MongoContainerId)
    ensures Text.Contains(Render(t, id), t.head + id.rootProjectName + "\"")
    ensures Text.Contains(Render(t, id), t.afterRoot + id.imageName + "\"")
    ensures Text.Contains(Render(t, id), t.afterImage + id.databaseName + "\"")
    ensures Text.Contains(Render(t, id), t.afterDatabase + BoolText(id.reuseBetweenBuilds))
    ensures Text.Contains(Render(t, id), t.afterReuse + BoolText(id.newDatabaseForEachTask) + "}")
  {
    var p1 := t.head + id.rootProjectName + "\"";
    var p2 := t.afterRoot + id.imageName + "\"";
    var p3 := t.afterImage + id.databaseName + "\"";
    var p4 := t.afterDatabase + BoolText(id.reuseBetweenBuilds);
    var p5 := t.afterReuse + BoolText(id.newDatabaseForEachTask) + "}";
    assert Render(t, id) == p1 + RootRest(t, id);
    assert RootRest(t, id) == p2 + ImageRest(t, id);
    assert ImageRest(t, id) == p3 + DatabaseRest(t, id);
    assert DatabaseRest(t, id) == p4 + p5;
    Infix5(p1, p2, p3, p4, p5);
  }

  /** Each of five consecutive pieces is contained in their concatenation. */
  lemma Infix5(p1: string, p2: string, p3: string, p4: string, p5: string)
    ensures var s := p1 + (p2 + (p3 + (p4 + p5)));
      Text.Contains(s, p1) && Text.Contains(s, p2) && Text.Contains(s, p3) && Text.Contains(s, p4) && Text.Contains(s, p5)
  {
    var s := p1 + (p2 + (p3 + (p4 + p5)));
    assert s == [] + p1 + (p2 + p3 + p4 + p5);
    Text.ContainsInfix([], p1, p2 + p3 + p4 + p5);
    assert s == p1 + p2 + (p3 + p4 + p5);
    Text.ContainsInfix(p1, p2, p3 + p4 + p5);
    assert s == p1 + p2 + p3 + (p4 + p5);
    Text.ContainsInfix(p1 + p2, p3, p4 + p5);
    assert s == p1 + p2 + p3 + p4 + p5;
    Text.ContainsInfix(p1 + p2 + p3, p4, p5);
    assert s == p1 + p2 + p3 + p4 + p5 + [];
    Text.ContainsInfix(p1 + p2 + p3 + p4, p5, []);
  }

  /**
   * The JSON is exactly the template text with the five fields in place:
   * strings verbatim between quotes, booleans bare, nothing else.
   */
  lemma JsonFields(id: MongoContainerId)
    ensures Json(id) ==
      "{\"rootProjectName\":\"" + id.rootProjectName + "\""
      + ",\"imageName\":\"" + id.imageName + "\""
      + ",\"databaseName\":\"" + id.databaseName + "\""
      + ",\"reuseBetweenBuilds\":" + BoolText(id.reuseBetweenBuilds)
      + ",\"newDatabaseForEachTask\":" + BoolText(id.newDatabaseForEachTask) + "}"
  {
    var t := JsonTemplate;
    Flatten(t.head, id.rootProjectName, "\"", t.afterRoot, id.imageName, "\"", t.afterImage, id.databaseName, "\"",
      t.afterDatabase, BoolText(id.reuseBetweenBuilds), t.afterReuse, BoolText(id.newDatabaseForEachTask), "}");
  }

  /** The right-nested concatenation `Render` builds, read left to right. */
  lemma Flatten<T>(a1: seq<T>, a2: seq<T>, a3: seq<T>, a4: seq<T>, a5: seq<T>, a6: seq<T>, a7: seq<T>,
                   a8: seq<T>, a9: seq<T>, a10: seq<T>, a11: seq<T>, a12: seq<T>, a13: seq<T>, a14: seq<T>)
    ensures a1 + (a2 + (a3 + (a4 + (a5 + (a6 + (a7 + (a8 + (a9 + (a10 + (a11 + (a12 + (a13 + a14))))))))))))
         == a1 + a2 + a3 + a4 + a5 + a6 + a7 + a8 + a9 + a10 + a11 + a12 + a13 + a14
  {
  }

  predicate QuoteFree(s: string)
  {
    '"' !in s
  }

  /** Text before the first quote is determined: two splits at a quote that agree are the same split. */
  lemma QuoteSplit(x: string, y: string, x2: string, y2: string)
    requires QuoteFree(x) && QuoteFree(x2)
    requires Quoted(x, y) == Quoted(x2, y2)
    ensures x == x2 && y == y2
  {
    var s := Quoted(x, y);
    assert s[|x|] == '"' && s[|x2|] == '"';
    assert forall i :: 0 <= i < |x| ==> s[i] == x[i];
    assert forall i :: 0 <= i < |x2| ==> s[i] == x2[i];
    assert |x| == |x2|;
    assert x == s[..|x|] && x2 == s[..|x2|];
    assert y == s[|x| + 1..] && y2 == s[|x2| + 1..];
  }

  lemma StripPrefix(p: string, y: string, y2: string)
    requires p + y == p + y2
    ensures y == y2
  {
    assert y == (p + y)[|p|..] && y2 == (p + y2)[|p|..];
  }

  /** Without quotes in its string fields, a rendering determines the id. */
  lemma {:induction false} RenderInjective(t: Template, a: MongoContainerId, b: MongoContainerId)
    requires QuoteFree(a.rootProjectName) && QuoteFree(a.imageName) && QuoteFree(a.databaseName)
    requires QuoteFree(b.rootProjectName) && QuoteFree(b.imageName) && QuoteFree(b.databaseName)
    requires Render(t, a) == Render(t, b)
    ensures a == b
  {
    StripPrefix(t.head, Quoted(a.rootProjectName, RootRest(t, a)), Quoted(b.rootProjectName, RootRest(t, b)));
    QuoteSplit(a.rootProjectName, RootRest(t, a), b.rootProjectName, RootRest(t, b));
    StripPrefix(t.afterRoot, Quoted(a.imageName, ImageRest(t, a)), Quoted(b.imageName, ImageRest(t, b)));
    QuoteSplit(a.imageName, ImageRest(t, a), b.imageName, ImageRest(t, b));
    StripPrefix(t.afterImage, Quoted(a.databaseName, DatabaseRest(t, a)), Quoted(b.databaseName, DatabaseRest(t, b)));
    QuoteSplit(a.databaseName, DatabaseRest(t, a), b.databaseName, DatabaseRest(t, b));
    StripPrefix(t.afterDatabase, Tail(t, a.reuseBetweenBuilds, a.newDatabaseForEachTask),
      Tail(t, b.reuseBetweenBuilds, b.newDatabaseForEachTask));
    TailInjective(t, a.reuseBetweenBuilds, a.newDatabaseForEachTask, b.reuseBetweenBuilds, b.newDatabaseForEachTask);
  }

  lemma TailInjective(t: Template, r1: bool, f1: bool, r2: bool, f2: bool)
    requires Tail(t, r1, f1) == Tail(t, r2, f2)
    ensures r1 == r2 && f1 == f2
  {
    assert Tail(t, r1, f1)[0] == BoolText(r1)[0] && Tail(t, r2, f2)[0] == BoolText(r2)[0];
    StripPrefix(BoolText(r1), t.afterReuse + (BoolText(f1) + "}"), t.afterReuse + (BoolText(f2) + "}"));
    StripPrefix(t.afterReuse, BoolText(f1) + "}", BoolText(f2) + "}");
    assert (BoolText(f1) + "}")[0] == BoolText(f1)[0];
    assert (BoolText(f2) + "}")[0] == BoolText(f2)[0];
  }

  /** Without quotes in its string fields, the JSON determines the id. */
  lemma JsonInjective(a: MongoContainerId, b: MongoContainerId)
    requires QuoteFree(a.rootProjectName) && QuoteFree(a.imageName) && QuoteFree(a.databaseName)
    requires QuoteFree(b.rootProjectName) && QuoteFree(b.imageName) && QuoteFree(b.databaseName)
    requires Json(a) == Json(b)
    ensures a == b
  {
    RenderInjective(JsonTemplate, a, b);
  }

  /** A root name carrying a quote and the next field's name renders like a different id. */
  lemma {:induction false} RenderCollision(t: Template, p: string, i: string, x: string, d: string)
    ensures var a := MongoContainerId(p + "\"" + t.afterRoot + i, x, d, false, false);
      var b := MongoContainerId(p, i + "\"" + t.afterRoot + x, d, false, false);
      Render(t, a) == Render(t, b)
  {
    var a := MongoContainerId(p + "\"" + t.afterRoot + i, x, d, false, false);
    var b := MongoContainerId(p, i + "\"" + t.afterRoot + x, d, false, false);
    var rest := ImageRest(t, a);
    assert ImageRest(t, b) == rest;
    assert Quoted(a.rootProjectName, t.afterRoot + Quoted(x, rest))
        == Quoted(p, t.afterRoot + Quoted(b.imageName, rest));
  }

  /**
   * Without escaping, a quote in a field can impersonate the next field: a
   * root name `p","imageName":"i` with image `x`, and a root name `p` with
   * image `i","imageName":"x`, are two ids with one JSON.
   */
  lemma VerbatimCollision()
    ensures var a := MongoContainerId("p" + "\"" + JsonTemplate.afterRoot + "i", "x", "d", false, false);
      var b := MongoContainerId("p", "i" + "\"" + JsonTemplate.afterRoot + "x", "d", false, false);
      a != b && Json(a) == Json(b)
  {
    RenderCollision(JsonTemplate, "p", "i", "x", "d");
  }

  /** A `MongoContainerId` object: the fields and the lazily computed JSON. */
  class MongoId {
    const id: MongoContainerId
    /** The cached JSON: none until first asked for. */
    var cache: Option<string>

    constructor (id: MongoContainerId)
      ensures this.id == id && cache == None && Valid()
    {
      this.id := id;
      cache := None;
    }

    /** Whatever is cached is the JSON of the fields. */
    ghost predicate Valid()
      reads this
    {
      cache.Some? ==> cache.value == Json(id)
    }

    /** `json()`: computes and caches on the first call, returns the cache afterwards. */
    method JsonText() returns (s: string)
      requires Valid()
      modifies this`cache
      ensures Valid() && s == Json(id) && cache == Some(s)
    {
      if cache.None? {
        cache := Some(Json(id));
      }
      s := cache.value;
    }

    /** `toString()`: the JSON. */
    method ToString() returns (s: string)
      requires Valid()
      modifies this`cache
      ensures Valid() && s == Json(id) && cache == Some(s)
    {
      s := JsonText();
    }
  }

}

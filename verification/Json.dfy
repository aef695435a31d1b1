/** JSON values as JavaScript sees them after JSON.parse. */
module Json {
  import opened Wrappers
  import opened Text

  /** `Int` is a number that Number.isInteger accepts; `Fraction` stands for every other number. */
  datatype Json =
    | Null
    | Bool(b: bool)
    | Int(n: int)
    | Fraction(text: string)
    | Str(units: seq<CodeUnit>)
    | Arr(items: seq<Json>)
    | Obj(fields: map<string, Json>)

  /** `j.name`, where a missing property, null and a non-object all read as Null. */
  function Prop(j: Json, name: string): Json {
    if j.Obj? && name in j.fields then j.fields[name] else Null
  }

  /** `a ?? b` */
  function Coalesce(a: Json, b: Json): Json { if a.Null? then b else a }

  predicate IsObject(j: Json) { j.Obj? || j.Arr? }

  predicate IsText(j: Json, s: string) { j == Str(Ascii(s)) }

  const SENTINELS: set<string> := {"[DONE]", "[done]"}

  /**
   What is used of JSON.parse and JSON.stringify, on the objects actually sent: each prints on one line
   between braces and parses back to itself, and the end-of-stream sentinels are not JSON.
   */
  ghost predicate Codec(parse: string -> Option<Json>, render: Json -> string, sent: set<Json>) {
    && (forall j :: j in sent ==> parse(render(j)) == Some(j))
    && (forall j :: j in sent ==> Braced(render(j)))
    && (forall p :: p in SENTINELS ==> parse(p) == None)
  }

  predicate Braced(s: string) {
    |s| >= 2 && s[0] == '{' && s[|s| - 1] == '}' && OneLine(s)
  }

  lemma CodecOfFewer(parse: string -> Option<Json>, render: Json -> string, sent: set<Json>, fewer: set<Json>)
    requires Codec(parse, render, sent) && fewer <= sent
    ensures Codec(parse, render, fewer)
  {
  }

  /** A braced line of a given length. */
  function Numbered(n: nat): (s: string)
    ensures Braced(s) && |s| == n + 2
  {
    "{" + seq(n, _ => 'x') + "}"
  }

  /** Some codec serves any objects that are ever sent. */
  lemma {:induction false} SomeCodec(sent: set<Json>) returns (parse: string -> Option<Json>, render: Json -> string)
    ensures Codec(parse, render, sent)
    ensures forall j :: j in sent ==> |render(j)| < |sent| + 2
    decreases |sent|
  {
    if sent == {} {
      parse, render := (s: string) => None, (j: Json) => "{}";
    } else {
      var x :| x in sent;
      var others := sent - {x};
      var p, r := SomeCodec(others);
      var own := Numbered(|others|);
      parse := (s: string) => if s == own then Some(x) else p(s);
      render := (j: Json) => if j == x then own else r(j);
      assert sent == others + {x};
    }
  }
}

/**
 * Go's `text/template` for the templates the core uses: literal text and
 * `{{.Name}}` fields looked up in a string map. The result is not escaped,
 * and a key the map lacks prints as "<no value>".
 */
module TextTemplate {
  datatype Piece = Text(text: string) | Field(name: string)

  /** A parsed template: its literal runs and fields in order. */
  type Template = seq<Piece>

  /** What `Execute` prints for a missing map key under the default option. */
  const NoValue := "<no value>"

  function RenderPiece(p: Piece, data: map<string, string>): (r: string)
    ensures p.Text? ==> r == p.text
    ensures p.Field? && p.name in data ==> r == data[p.name]
    ensures p.Field? && p.name !in data ==> r == NoValue
  {
    match p
    case Text(s) => s
    case Field(name) => if name in data then data[name] else NoValue
  }

  /** `Execute` with a map as the data. */
  function Render(t: Template, data: map<string, string>): string
  {
    if t == [] then [] else RenderPiece(t[0], data) + Render(t[1..], data)
  }

  /** Rendering a sequence of templates renders each part in turn. */
  lemma {:induction false} RenderCat(a: Template, b: Template, data: map<string, string>)
    ensures Render(a + b, data) == Render(a, data) + Render(b, data)
  {
    if a == [] {
      assert a + b == b;
    } else {
      assert (a + b)[1..] == a[1..] + b;
      RenderCat(a[1..], b, data);
    }
  }

  predicate NoFields(t: Template)
  {
    forall i :: 0 <= i < |t| ==> t[i].Text?
  }

  /** A template without fields prints the same whatever the data, even none. */
  lemma {:induction false} RenderNoFields(t: Template, d1: map<string, string>, d2: map<string, string>)
    requires NoFields(t)
    ensures Render(t, d1) == Render(t, d2)
  {
    if t != [] {
      assert NoFields(t[1..]) by {
        assert forall i :: 0 <= i < |t[1..]| ==> t[1..][i] == t[i + 1];
      }
      RenderNoFields(t[1..], d1, d2);
    }
  }

  /** A template with one field between two runs of text. */
  lemma RenderOneField(head: string, name: string, tail: string, data: map<string, string>)
    requires name in data
    ensures Render([Text(head), Field(name), Text(tail)], data) == head + data[name] + tail
  {
    var t := [Text(head), Field(name), Text(tail)];
    assert t[1..] == [Field(name), Text(tail)];
    assert t[1..][1..] == [Text(tail)];
    assert t[1..][1..][1..] == [];
    assert Render(t[1..][1..], data) == tail + [];
    assert Render(t[1..], data) == data[name] + (tail + []);
  }

  /** A template with two fields among three runs of text. */
  lemma RenderTwoFields(head: string, n1: string, mid: string, n2: string, tail: string, data: map<string, string>)
    requires n1 in data && n2 in data
    ensures Render([Text(head), Field(n1), Text(mid), Field(n2), Text(tail)], data)
         == head + data[n1] + mid + data[n2] + tail
  {
    var t := [Text(head), Field(n1), Text(mid), Field(n2), Text(tail)];
    assert t[1..][1..] == [Text(mid), Field(n2), Text(tail)];
    RenderOneField(mid, n2, tail, data);
  }
}

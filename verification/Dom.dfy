/** The parts of the session document that compaction and configuration read. */
module Dom {
  import opened Wrappers
  import opened Text

  /** Element names are opaque; a number stands for the name. */
  type ElementId = nat

  /** An attribute value; `Json` holds the serialized value. */
  datatype TypedValue =
    | Null
    | Bool(b: bool)
    | Integer(i: int)
    | Number(x: real)
    | String(s: string)
    | Json(text: string)

  /** A child element; `payload` holds the serialized JSON value. */
  datatype Child = Child(kind: string, text: string, payload: Option<string>)

  datatype Element = Element(
    id: ElementId,
    kind: string,
    attributes: map<string, TypedValue>,
    text: string,
    children: seq<Child>)

  /** First child of the given kind. */
  function FindChild(children: seq<Child>, kind: string): Option<Child> {
    if children == [] then None
    else if children[0].kind == kind then Some(children[0])
    else FindChild(children[1..], kind)
  }

  /** The child found is the first of its kind, and none is found exactly when there is none. */
  lemma {:induction false} FirstOfKind(children: seq<Child>, kind: string)
    ensures FindChild(children, kind).None? <==> forall i :: 0 <= i < |children| ==> children[i].kind != kind
    ensures FindChild(children, kind).Some? ==>
      exists i :: 0 <= i < |children| && children[i].kind == kind && children[i] == FindChild(children, kind).value &&
        forall j :: 0 <= j < i ==> children[j].kind != kind
  {
    if children != [] {
      FirstOfKind(children[1..], kind);
      if children[0].kind == kind {
        assert children[0] == FindChild(children, kind).value;
      } else {
        assert forall i :: 1 <= i < |children| ==> children[i] == children[1..][i - 1];
        if FindChild(children, kind).Some? {
          var i :| 0 <= i < |children[1..]| && children[1..][i].kind == kind && children[1..][i] == FindChild(children, kind).value &&
            forall j :: 0 <= j < i ==> children[1..][j].kind != kind;
          assert children[i + 1] == children[1..][i];
          forall j | 0 <= j < i + 1
            ensures children[j].kind != kind
          {
            if j > 0 {
              assert children[j] == children[1..][j - 1];
            }
          }
        }
      }
    }
  }

  predicate HasValue(attributes: map<string, TypedValue>, name: string, value: TypedValue) {
    name in attributes && attributes[name] == value
  }

  /** The character set and length every wire identifier obeys. */
  predicate ValidId(s: string) {
    && s != []
    && ByteLen(s) <= 128
    && forall i :: 0 <= i < |s| ==> IsIdChar(s[i])
  }

  predicate IsIdChar(c: char) {
    'a' <= c <= 'z' || 'A' <= c <= 'Z' || '0' <= c <= '9' || c == '.' || c == '_' || c == '-'
  }
}

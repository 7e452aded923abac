/** JSON values as JSON.parse returns them; an absent key reads as `undefined`. */
module Json {
  import opened Js

  datatype Json =
    | Null
    | Bool(b: bool)
    | Number(n: real)
    | Str(s: string)
    | Arr(items: seq<Json>)
    | Obj(fields: map<string, Json>)

  /** The value under a key, if the value is an object that has it. */
  function Get(j: Option<Json>, key: string): Option<Json> {
    if j.Some? && j.value.Obj? && key in j.value.fields then Some(j.value.fields[key]) else None
  }

  function Record(j: Option<Json>): Option<Json> {
    if j.Some? && j.value.Obj? then j else None
  }

  /** A string trimmed, everything else as the empty text. */
  function Text(j: Option<Json>): string {
    if j.Some? && j.value.Str? then Trim(j.value.s) else ""
  }

  function Items(j: Option<Json>): seq<Json> {
    if j.Some? && j.value.Arr? then j.value.items else []
  }

  /** The non-blank strings of an array, trimmed. */
  function TextsOf(items: seq<Json>): seq<string> {
    if items == [] then []
    else
      var t := Text(Some(items[|items| - 1]));
      TextsOf(items[..|items| - 1]) + if t == "" then [] else [t]
  }

  function Texts(j: Option<Json>): seq<string> {
    TextsOf(Items(j))
  }

  function StrArray(texts: seq<string>): Json {
    Arr(seq(|texts|, i requires 0 <= i < |texts| => Str(texts[i])))
  }

  /** A text as the readers leave it: trimmed and not empty. */
  predicate Clean(s: string) {
    s != "" && Trim(s) == s
  }

  lemma {:induction false} CleanTextsReadBack(texts: seq<string>)
    requires forall i :: 0 <= i < |texts| ==> Clean(texts[i])
    ensures TextsOf(StrArray(texts).items) == texts
  {
    if texts != [] {
      var front := texts[..|texts| - 1];
      CleanTextsReadBack(front);
      assert StrArray(texts).items[..|texts| - 1] == StrArray(front).items;
      assert texts == front + [texts[|texts| - 1]];
      hide Trim;
    } else {
      assert StrArray(texts).items == [];
    }
  }

  lemma {:induction false} TextsAreClean(items: seq<Json>)
    ensures forall i :: 0 <= i < |TextsOf(items)| ==> Clean(TextsOf(items)[i])
  {
    if items != [] {
      TextsAreClean(items[..|items| - 1]);
      TextIsClean(Some(items[|items| - 1]));
      hide Trim, Text;
    }
  }

  /** The texts of an array are its strings with something in them, trimmed. */
  lemma {:induction false} TextsAreTheStrings(items: seq<Json>, t: string)
    ensures t in TextsOf(items) <==> t != "" && exists i :: 0 <= i < |items| && items[i].Str? && Trim(items[i].s) == t
  {
    hide Trim;
    if items != [] {
      var n := |items| - 1;
      TextsAreTheStrings(items[..n], t);
      if i :| 0 <= i < |items| && items[i].Str? && Trim(items[i].s) == t && i < n {
        assert items[..n][i] == items[i];
      }
    }
  }

  lemma TextIsClean(j: Option<Json>)
    ensures Text(j) == "" || Clean(Text(j))
  {
    if j.Some? && j.value.Str? {
      TrimIdempotent(j.value.s);
    }
  }
}

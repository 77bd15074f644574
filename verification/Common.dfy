/** Datatypes and sequence facts shared by every component. */
module Common {
  datatype Option<+T> = None | Some(value: T)

  /** A value on success, an error otherwise. */
  datatype Result<+T, +E> = Ok(value: T) | Err(error: E)

  lemma Reassociate<T>(a: seq<T>, b: seq<T>, c: seq<T>)
    ensures a + b + c == a + (b + c)
  {
  }

  lemma Empty<T>(a: seq<T>)
    ensures a + [] == a && [] + a == a
  {
  }

  lemma Halves<T>(s: seq<T>, n: nat)
    requires n <= |s|
    ensures s[..n] + s[n..] == s
  {
  }

  lemma First<T>(x: T, rest: seq<T>)
    ensures ([x] + rest)[0] == x && ([x] + rest)[1..] == rest
  {
  }

  lemma Last<T>(init: seq<T>, x: T)
    ensures (init + [x])[|init|] == x && (init + [x])[..|init|] == init
  {
  }

  /** Texts one after another. */
  function Join(texts: seq<string>): string {
    if texts == [] then "" else texts[0] + Join(texts[1..])
  }

  lemma JoinOne(text: string)
    ensures Join([text] + []) == text
  {
    assert ([text] + [])[1..] == [];
    assert text + "" == text;
  }

  /** Texts with a separator between neighbours. */
  function JoinWith(texts: seq<string>, separator: string): string {
    if texts == [] then ""
    else if |texts| == 1 then texts[0]
    else texts[0] + separator + JoinWith(texts[1..], separator)
  }
}

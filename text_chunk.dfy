/**
 * `TextChunk` (tree/pattern/TextChunk.cpp): a piece of literal text in a
 * parse-tree pattern. The text must not be empty.
 */
module TextChunks {
  import opened Wrappers
  import Exceptions

  /**
   * A text chunk: the `classtype` flags inherited from `Chunk` and the text.
   * The flag values of `Chunk`'s class types are declared in
   * tree/pattern/Chunk.h, which is not part of this model, so the value of
   * `TextChunkClass` is a parameter of `New`.
   */
  datatype TextChunk = TextChunk(classtype: bv64, text: string)

  /** The message the constructor throws with. */
  const EmptyTextMessage: string := "text cannot be nul"

  /**
   * `TextChunk(text)`, on an object whose `Chunk` part has flags
   * `classtype`: or-in `TextChunkClass`, then reject the empty text with an
   * `IllegalArgumentException`.
   */
  function New(classtype: bv64, textChunkClass: bv64, text: string): (r: Result<TextChunk, Exceptions.Exception>)
    ensures r.Failure? <==> text == ""
    ensures r.Failure? ==> r.error.kind == Exceptions.IllegalArgumentException
    ensures r.Failure? ==> Exceptions.What(r.error) == EmptyTextMessage
    ensures r.Success? ==> r.value.text == text
  {
    var flags := classtype | textChunkClass;
    if text == "" then
      Failure(Exceptions.New(Exceptions.IllegalArgumentException, EmptyTextMessage))
    else
      Success(TextChunk(flags, text))
  }

  /** The constructor keeps every flag the object had and sets those of `TextChunkClass`. */
  lemma NewKeepsFlags(classtype: bv64, textChunkClass: bv64, text: string)
    requires text != ""
    ensures New(classtype, textChunkClass, text).value.classtype & classtype == classtype
    ensures New(classtype, textChunkClass, text).value.classtype & textChunkClass == textChunkClass
    ensures OnlyBits(New(classtype, textChunkClass, text).value.classtype, classtype | textChunkClass)
  {
    NoBitOutside(classtype | textChunkClass);
  }

  /** `w` has no bit outside `mask`. */
  predicate OnlyBits(w: bv64, mask: bv64) {
    w & !mask == 0
  }

  /** A word has no bit outside itself. */
  lemma NoBitOutside(z: bv64)
    ensures OnlyBits(z, z)
  {
  }

  /** `getText()` */
  function GetText(c: TextChunk): string {
    c.text
  }

  /** `getText()` answers exactly what the constructor was given. */
  lemma GetTextIsArgument(classtype: bv64, textChunkClass: bv64, text: string)
    requires text != ""
    ensures GetText(New(classtype, textChunkClass, text).value) == text
  {
  }

  /** `toString()`: the text between single quotes. */
  function ToString(c: TextChunk): (s: string)
    ensures |s| == |c.text| + 2
    ensures s[0] == '\'' && s[|s| - 1] == '\''
    ensures forall i :: 0 <= i < |c.text| ==> s[i + 1] == c.text[i]
  {
    "'" + c.text + "'"
  }

  /** The text inside a quoted string, if it is quoted. */
  function Unquote(s: string): Option<string> {
    if |s| >= 2 && s[0] == '\'' && s[|s| - 1] == '\'' then Some(s[1..|s| - 1]) else None
  }

  /** Unquoting `toString()` gives the text back, so distinct texts print distinctly. */
  lemma UnquoteToString(c: TextChunk)
    ensures Unquote(ToString(c)) == Some(c.text)
  {
    var s := ToString(c);
    assert s[1..|s| - 1] == c.text;
  }
}

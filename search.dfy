/**
 * The search box of src/widgets/search.rs: keys that clear it, Enter that leaves it alone, and
 * a gate that stops ordinary input once the text is longer than 100 bytes. The text area's own
 * editing is an `Editor` parameter: what a key does to the line.
 */
module SearchWidget {
  import opened Text
  import opened Keys

  /** `TextArea::input` on the first line: the line after the key is applied. */
  type Editor = (string, KeyEvent) -> string

  /** Longest text, in UTF-8 bytes, at which a key still reaches the text area. */
  const MaxInputBytes := 100

  /** Ctrl+Space (Control only) or '/' with any modifiers. */
  predicate IsClearKey(key: KeyEvent)
  {
    IsControlChar(key, ' ') || IsChar(key, '/')
  }

  /** The line after `handle_key_event`. */
  function SearchKey(line: string, key: KeyEvent, editor: Editor): string
  {
    if IsClearKey(key) then ""
    else if key.code == Enter then line
    else if Utf8Len(line) <= MaxInputBytes then editor(line, key)
    else line
  }

  /** A text area editor that adds no character other than the one on the key. */
  ghost predicate InsertsOnlyTyped(editor: Editor)
  {
    forall s, k, x :: x in editor(s, k) ==> x in s || k.code == Char(x)
  }

  /**
   * '/' clears the box instead of reaching the text area, so with an editor that adds only the
   * typed character, no sequence of keys puts a '/' into a box that has none.
   */
  lemma {:induction false} SlashNeverTyped(line: string, keys: seq<KeyEvent>, editor: Editor)
    requires '/' !in line && InsertsOnlyTyped(editor)
    ensures '/' !in Typed(line, keys, editor)
  {
    if |keys| > 0 {
      SlashNeverTyped(line, keys[..|keys| - 1], editor);
    }
  }

  /** Enter is swallowed by the search box whatever the modifiers. */
  lemma EnterKeepsText(line: string, key: KeyEvent, editor: Editor)
    requires key.code == Enter
    ensures SearchKey(line, key, editor) == line
  {
  }

  /** A clear key empties the line whatever its length. */
  lemma ClearKeyEmpties(line: string, key: KeyEvent, editor: Editor)
    requires IsClearKey(key)
    ensures SearchKey(line, key, editor) == ""
  {
  }

  /** Once the text exceeds 100 bytes, only a clear key changes it. */
  lemma GateHolds(line: string, key: KeyEvent, editor: Editor)
    requires Utf8Len(line) > MaxInputBytes
    ensures SearchKey(line, key, editor) == if IsClearKey(key) then "" else line
  {
  }

  /**
   * Under the gate the text stays at most g bytes past 100 when the editor adds at most g
   * bytes per key: the limit is checked before a key, not after it.
   */
  lemma {:induction false} GrowthBounded(line: string, keys: seq<KeyEvent>, editor: Editor, g: nat)
    requires Utf8Len(line) <= MaxInputBytes + g
    requires forall s, k :: Utf8Len(editor(s, k)) <= Utf8Len(s) + g
    ensures Utf8Len(Typed(line, keys, editor)) <= MaxInputBytes + g
  {
    if |keys| > 0 {
      GrowthBounded(line, keys[..|keys| - 1], editor, g);
    }
  }

  /** The line after each key of a sequence in turn. */
  function Typed(line: string, keys: seq<KeyEvent>, editor: Editor): string
  {
    if |keys| == 0 then line
    else SearchKey(Typed(line, keys[..|keys| - 1], editor), keys[|keys| - 1], editor)
  }

  /** A 100-byte text still takes a key, so an editor that appends can reach 101 bytes. */
  lemma GateLetsOneMore(line: string, key: KeyEvent, editor: Editor)
    requires Utf8Len(line) == MaxInputBytes && !IsClearKey(key) && key.code != Enter
    requires editor(line, key) == line + ['a']
    ensures Utf8Len(SearchKey(line, key, editor)) == MaxInputBytes + 1
  {
    Utf8LenAppend(line, ['a']);
  }

  /** `Search`: the text area's first line. */
  class Search {
    var line: string

    /** `Search::default()`: an empty box. */
    constructor ()
      ensures line == ""
    {
      line := "";
    }

    /** `text`: the first line of the text area, which is the whole query. */
    function CurrentText(): (r: string)
      reads this
      ensures r == line
    {
      line
    }

    /** `handle_key_event`. */
    method HandleKeyEvent(key: KeyEvent, editor: Editor)
      modifies this
      ensures line == SearchKey(old(line), key, editor)
    {
      if IsControlChar(key, ' ') || IsChar(key, '/') {
        ClearText();
      } else if key.code == Enter {
      } else if Utf8Len(line) <= MaxInputBytes {
        line := editor(line, key);
      }
    }

    /**
     * `clear_text`: from the head of the line delete as many characters as the line has
     * bytes. That is at least its character count, so the whole line goes.
     */
    method ClearText()
      modifies this
      ensures line == ""
    {
      var count := Utf8Len(line);
      Utf8LenAtLeastLength(line);
      line := line[if count < |line| then count else |line|..];
    }
  }
}

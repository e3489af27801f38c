/** services/wordService.ts: drawing the secret word pair for a game from the
    selected themes, avoiding pairs already used in that theme. The stored
    history is a value passed in and returned, not browser storage. */
module WordService {
  import opened GameTypes

  /** `WORD_LISTS`: the word pairs of each theme id. */
  type WordLists = map<string, seq<WordPair>>

  /** `UsedWords`: per theme id, the `normal` words already drawn, oldest first. */
  type UsedWords = map<string, seq<string>>

  /** A pool item: `{ pair, themeId }`. */
  datatype Entry = Entry(pair: WordPair, themeId: string)

  /** What the key-value store holds under the history key. */
  datatype Stored<T> = Missing | Unparseable | Parsed(value: T)

  /** The result of `getGameWords`. */
  datatype GameWords = GameWords(secretWord: string, undercoverWord: string, themeLabel: string)

  /** The theme used when the selection yields no pairs. */
  const DefaultTheme: string := "argentina"

  /** `getUsedWords`: a missing or unparseable entry reads as the empty history. */
  function LoadUsedWords(stored: Stored<UsedWords>): (h: UsedWords)
    ensures !stored.Parsed? ==> h == map[]
    ensures stored.Parsed? ==> h == stored.value
  {
    if stored.Parsed? then stored.value else map[]
  }

  /** `saveUsedWords`: the history is stored whole. */
  function SaveUsedWords(h: UsedWords): Stored<UsedWords>
  {
    Parsed(h)
  }

  lemma SaveThenLoad(h: UsedWords)
    ensures LoadUsedWords(SaveUsedWords(h)) == h
  {
  }

  /** The pairs of one theme tagged with its id. */
  function Tagged(pairs: seq<WordPair>, themeId: string): (r: seq<Entry>)
    ensures |r| == |pairs|
    ensures forall k :: 0 <= k < |pairs| ==> r[k] == Entry(pairs[k], themeId)
  {
    seq(|pairs|, k requires 0 <= k < |pairs| => Entry(pairs[k], themeId))
  }

  /** What one selected theme id contributes: nothing when it is not a known theme. */
  function ThemeEntries(lists: WordLists, themeId: string): seq<Entry>
  {
    if themeId in lists then Tagged(lists[themeId], themeId) else []
  }

  /** The pool before the fallback: the selected themes' pairs, in selection order. */
  function Pool(lists: WordLists, selected: seq<string>): seq<Entry>
  {
    if selected == [] then []
    else Pool(lists, selected[..|selected| - 1]) + ThemeEntries(lists, selected[|selected| - 1])
  }

  /** The pool after the fallback to the default theme. */
  function DrawPool(lists: WordLists, selected: seq<string>): seq<Entry>
    requires DefaultTheme in lists
  {
    var pool := Pool(lists, selected);
    if pool == [] then Tagged(lists[DefaultTheme], DefaultTheme) else pool
  }

  /** An item is in the pool exactly when it is a pair of a selected, known theme,
      tagged with that theme. */
  lemma {:induction false} PoolMembers(lists: WordLists, selected: seq<string>, e: Entry)
    ensures e in Pool(lists, selected) <==>
              e.themeId in selected && e.themeId in lists && e.pair in lists[e.themeId]
  {
    if selected != [] {
      var init := selected[..|selected| - 1];
      var last := selected[|selected| - 1];
      PoolMembers(lists, init, e);
      assert selected == init + [last];
      if e in ThemeEntries(lists, last) {
        var k :| 0 <= k < |ThemeEntries(lists, last)| && ThemeEntries(lists, last)[k] == e;
        assert e.pair == lists[last][k];
      }
      if e.themeId == last && e.themeId in lists && e.pair in lists[e.themeId] {
        var k :| 0 <= k < |lists[last]| && lists[last][k] == e.pair;
        assert ThemeEntries(lists, last)[k] == e;
      }
    }
  }

  /** The history of one theme; `history[themeId] || []`. */
  function ThemeHistory(history: UsedWords, themeId: string): seq<string>
  {
    if themeId in history then history[themeId] else []
  }

  /** An item whose `normal` word has not been drawn in its theme yet. */
  predicate Unused(history: UsedWords, e: Entry)
  {
    e.pair.normal !in ThemeHistory(history, e.themeId)
  }

  /** The availability filter, keeping pool order. */
  function Available(pool: seq<Entry>, history: UsedWords): (r: seq<Entry>)
    ensures |r| <= |pool|
    ensures forall e :: e in r <==> e in pool && Unused(history, e)
  {
    if pool == [] then []
    else if Unused(history, pool[0]) then [pool[0]] + Available(pool[1..], history)
    else Available(pool[1..], history)
  }

  function WordsOf(e: Entry): GameWords
  {
    GameWords(e.pair.normal, e.pair.undercover, e.themeId)
  }

  /** The history with `normal` appended to the list of `themeId`. */
  function Recorded(history: UsedWords, themeId: string, normal: string): (r: UsedWords)
    ensures ThemeHistory(r, themeId) == ThemeHistory(history, themeId) + [normal]
    ensures forall t :: t != themeId ==> ThemeHistory(r, t) == ThemeHistory(history, t)
    ensures r.Keys == history.Keys + {themeId}
  {
    history[themeId := ThemeHistory(history, themeId) + [normal]]
  }

  /** The inner `forEach`: one theme's pairs pushed onto the pool, tagged. */
  method PushTheme(pool: seq<Entry>, pairs: seq<WordPair>, themeId: string) returns (r: seq<Entry>)
    ensures r == pool + Tagged(pairs, themeId)
  {
    r := pool;
    var j := 0;
    while j < |pairs|
      invariant 0 <= j <= |pairs|
      invariant r == pool + Tagged(pairs[..j], themeId)
    {
      r := r + [Entry(pairs[j], themeId)];
      j := j + 1;
    }
    assert pairs[..j] == pairs;
  }

  /** Step 1 of `getGameWords`: the selected themes' pairs pushed one by one,
      then the default theme's when nothing was pushed. */
  method BuildPool(lists: WordLists, selectedThemeIds: seq<string>) returns (pool: seq<Entry>)
    requires DefaultTheme in lists
    ensures pool == DrawPool(lists, selectedThemeIds)
  {
    pool := [];
    var i := 0;
    while i < |selectedThemeIds|
      invariant 0 <= i <= |selectedThemeIds|
      invariant pool == Pool(lists, selectedThemeIds[..i])
    {
      var themeId := selectedThemeIds[i];
      assert selectedThemeIds[..i + 1][..i] == selectedThemeIds[..i];
      if themeId in lists {
        pool := PushTheme(pool, lists[themeId], themeId);
      }
      i := i + 1;
    }
    assert selectedThemeIds[..i] == selectedThemeIds;

    // Fallback to the default theme.
    if |pool| == 0 {
      pool := PushTheme(pool, lists[DefaultTheme], DefaultTheme);
    }
  }

  /** `getGameWords`: builds the pool, keeps the unused pairs (or the whole pool
      when all are used), draws one with `u`, records its `normal` word under
      its theme and stores the history. */
  method GetGameWords(lists: WordLists, selectedThemeIds: seq<string>, stored: Stored<UsedWords>, u: Unit)
    returns (words: GameWords, saved: Stored<UsedWords>)
    requires DefaultTheme in lists && DrawPool(lists, selectedThemeIds) != []
    ensures exists e :: e in DrawPool(lists, selectedThemeIds) && words == WordsOf(e)
    ensures Available(DrawPool(lists, selectedThemeIds), LoadUsedWords(stored)) != [] ==>
              exists e :: e in DrawPool(lists, selectedThemeIds) && Unused(LoadUsedWords(stored), e)
                          && words == WordsOf(e)
    ensures LoadUsedWords(saved) == Recorded(LoadUsedWords(stored), words.themeLabel, words.secretWord)
  {
    var pool := BuildPool(lists, selectedThemeIds);

    // 2. Filter the used words; 3. reset when exhausted.
    var history := LoadUsedWords(stored);
    var available := Available(pool, history);
    if |available| == 0 {
      available := pool;
    }

    // 4. Pick one and record it.
    var selection := available[Scale(u, |available|)];
    assert selection in pool;
    history := Recorded(history, selection.themeId, selection.pair.normal);
    saved := SaveUsedWords(history);
    words := WordsOf(selection);
  }
}

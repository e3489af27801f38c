/** components/SetupPhase.tsx: the name list, the theme selection, the mode,
    and the gate in front of `startGame`. The component's `useState` fields
    are the fields of `Setup`; `THEMES[0].id` and `MIN_PLAYERS` are given to
    its constructor. */
module SetupPhase {
  import opened GameTypes
  import opened JsText
  import ScoreLedger

  /** No name occurs twice. */
  ghost predicate NoDuplicates(s: seq<string>)
  {
    forall i, j :: 0 <= i < j < |s| ==> s[i] != s[j]
  }

  /** `names.filter((_, i) => i !== index)`. */
  function RemoveAt(s: seq<string>, index: int): (r: seq<string>)
    ensures 0 <= index < |s| ==>
              && |r| == |s| - 1
              && (forall k :: 0 <= k < index ==> r[k] == s[k])
              && (forall k :: index <= k < |r| ==> r[k] == s[k + 1])
    ensures !(0 <= index < |s|) ==> r == s
  {
    if 0 <= index < |s| then s[..index] + s[index + 1..] else s
  }

  /** `selectedThemes.filter(id => id !== themeId)`. */
  function Without(s: seq<string>, x: string): (r: seq<string>)
    ensures forall y :: y in r <==> y in s && y != x
    ensures |r| <= |s|
    ensures x in s ==> |r| < |s|
  {
    if s == [] then []
    else if s[0] == x then Without(s[1..], x)
    else [s[0]] + Without(s[1..], x)
  }

  /** Filtering keeps the remaining elements in order, so it keeps them distinct. */
  lemma {:induction false} WithoutNoDuplicates(s: seq<string>, x: string)
    requires NoDuplicates(s)
    ensures NoDuplicates(Without(s, x))
  {
    if s != [] {
      var tail := s[1..];
      assert NoDuplicates(tail) by {
        forall i, j | 0 <= i < j < |tail| ensures tail[i] != tail[j] {
          assert tail[i] == s[i + 1] && tail[j] == s[j + 1];
        }
      }
      WithoutNoDuplicates(tail, x);
      if s[0] != x {
        var r := [s[0]] + Without(tail, x);
        assert s[0] !in tail by {
          forall k | 0 <= k < |tail| ensures tail[k] != s[0] { assert tail[k] == s[k + 1]; }
        }
        forall i, j | 0 <= i < j < |r| ensures r[i] != r[j] {
          if i == 0 {
            assert r[j] in Without(tail, x);
          }
        }
      }
    }
  }

  /** Appending a name that is not listed keeps the names distinct. */
  lemma AppendNew(s: seq<string>, x: string)
    requires NoDuplicates(s) && x !in s
    ensures NoDuplicates(s + [x])
  {
    var r := s + [x];
    forall i, j | 0 <= i < j < |r| ensures r[i] != r[j] {
      if j == |s| { assert r[i] == s[i]; }
    }
  }

  /** The undercover count `handleStart` asks for: one in chaos and hardcore
      once there are at least four names, none otherwise. */
  function UndercoverFor(mode: GameMode, count: nat): (uc: nat)
    ensures uc <= 1
    ensures uc == 1 <==> (mode == Chaos || mode == Hardcore) && count >= 4
  {
    if (mode == Chaos || mode == Hardcore) && count >= 4 then 1 else 0
  }

  /** The arguments of `onStartGame`; the round limit and the secret-ballot
      flag are left to their defaults (`null` and `true`). */
  datatype StartRequest = StartRequest(names: seq<string>, impostorCount: int, undercoverCount: int,
                                       selectedThemes: seq<string>, mode: GameMode)

  class Setup {
    var names: seq<string>
    var currentName: string
    var impostorCount: int
    var selectedThemes: seq<string>
    var gameMode: GameMode
    const minPlayers: nat

    /** The theme selection is never empty and lists each theme once; the
        names are listed once each. */
    ghost predicate Valid()
      reads this
    {
      |selectedThemes| >= 1 && NoDuplicates(selectedThemes) && NoDuplicates(names)
    }

    constructor (firstTheme: string, minPlayers: nat)
      ensures Valid()
      ensures names == [] && currentName == "" && impostorCount == 1
      ensures selectedThemes == [firstTheme] && gameMode == Chaos && this.minPlayers == minPlayers
    {
      names := [];
      currentName := "";
      impostorCount := 1;
      selectedThemes := [firstTheme];
      gameMode := Chaos;
      this.minPlayers := minPlayers;
    }

    /** The pre-fill effect: with no names listed, the names become the score
        ledger's keys (`Object.keys(scores)`, given here in their order). */
    method Prefill(scores: ScoreLedger.Ledger, keys: seq<string>)
      requires Valid()
      requires NoDuplicates(keys) && forall k :: k in keys <==> k in scores
      modifies this`names
      ensures Valid()
      ensures old(names) == [] && keys != [] ==> names == keys
      ensures old(names) != [] || keys == [] ==> names == old(names)
    {
      if |names| == 0 {
        if |keys| > 0 {
          names := keys;
        }
      }
    }

    /** The text input's `onChange`. */
    method Type(value: string)
      modifies this`currentName
      ensures currentName == value
    {
      currentName := value;
    }

    /** `addPlayer`: the trimmed input is appended when it is not blank and not
        listed yet, and the input is cleared; otherwise nothing changes. */
    method AddPlayer()
      requires Valid()
      modifies this`names, this`currentName
      ensures Valid()
      ensures var t := Trim(old(currentName));
              if t != [] && t !in old(names)
              then names == old(names) + [t] && currentName == "" && Trim(t) == t
              else names == old(names) && currentName == old(currentName)
    {
      var t := Trim(currentName);
      if t != [] && t !in names {
        TrimIdempotent(currentName);
        AppendNew(names, t);
        names := names + [t];
        currentName := "";
      }
    }

    /** `removePlayer(index)`: the name at `index` goes, the rest keep their order. */
    method RemovePlayer(index: int)
      requires Valid()
      modifies this`names
      ensures Valid()
      ensures names == RemoveAt(old(names), index)
    {
      var r := RemoveAt(names, index);
      if 0 <= index < |names| {
        forall i, j | 0 <= i < j < |r| ensures r[i] != r[j] {
          if j < index {
          } else if i < index {
            assert r[j] == names[j + 1];
          } else {
            assert r[i] == names[i + 1] && r[j] == names[j + 1];
          }
        }
      }
      names := r;
    }

    /** `toggleTheme`: a selected theme is dropped unless it is the only one;
        an unselected one is appended. */
    method ToggleTheme(themeId: string)
      requires Valid()
      modifies this`selectedThemes
      ensures Valid()
      ensures themeId in old(selectedThemes) && |old(selectedThemes)| > 1 ==>
                selectedThemes == Without(old(selectedThemes), themeId)
      ensures themeId in old(selectedThemes) && |old(selectedThemes)| == 1 ==>
                selectedThemes == old(selectedThemes)
      ensures themeId !in old(selectedThemes) ==> selectedThemes == old(selectedThemes) + [themeId]
    {
      if themeId in selectedThemes {
        if |selectedThemes| > 1 {
          WithoutNoDuplicates(selectedThemes, themeId);
          var r := Without(selectedThemes, themeId);
          assert |r| >= 1 by {
            var other := if selectedThemes[0] != themeId then selectedThemes[0] else selectedThemes[1];
            assert other in r;
          }
          selectedThemes := r;
        }
      } else {
        selectedThemes := selectedThemes + [themeId];
      }
    }

    /** One of the three mode buttons. */
    method SetMode(mode: GameMode)
      modifies this`gameMode
      ensures gameMode == mode
    {
      gameMode := mode;
    }

    /** The scoreboard's reset button also clears the names. */
    method ClearNames()
      requires Valid()
      modifies this`names
      ensures Valid() && names == []
    {
      names := [];
    }

    /** `isValid`: enough names to start. */
    predicate IsValid()
      reads this
    {
      |names| >= minPlayers
    }

    /** `handleStart`: nothing below `MIN_PLAYERS` names (the same threshold as
        `isValid`); otherwise the names, the one impostor, the undercover count
        of the mode and the selected themes go to `onStartGame`. */
    method Start() returns (request: Option<StartRequest>)
      ensures request.Some? <==> IsValid()
      ensures request.Some? ==>
                request.value.names == names && request.value.impostorCount == impostorCount
                && request.value.selectedThemes == selectedThemes && request.value.mode == gameMode
                && (request.value.undercoverCount == 1 <==> (gameMode == Chaos || gameMode == Hardcore) && |names| >= 4)
                && (request.value.undercoverCount == 0 || request.value.undercoverCount == 1)
    {
      if |names| < minPlayers {
        return None;
      }
      var finalUndercoverCount := UndercoverFor(gameMode, |names|);
      request := Some(StartRequest(names, impostorCount, finalUndercoverCount, selectedThemes, gameMode));
    }
  }
}

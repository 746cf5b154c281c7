/**
 * The `CommandLibrary` state the search drives: the stored `commands`, the listed
 * `filteredCommands` and the keyboard `selectedIndex`, with the operations that change them
 * (search, key navigation, delete, add, import) and the pure pieces those operations use
 * (tag parsing, the required-field check, import normalisation, deletion by id).
 * The search box text, the `confirm()` answer and generated ids are parameters.
 */
module Library {
  import opened Basics
  import opened Strings
  import opened Ranking

  /** An entry of `filteredCommands`: a stored command as is (empty query) or a ranked result. */
  datatype Listed = Plain(command: Command) | Scored(result: RankedResult)

  function CommandOf(l: Listed): Command
  {
    match l
    case Plain(c) => c
    case Scored(r) => r.command
  }

  function AsPlain(cmds: seq<Command>): (ls: seq<Listed>)
    ensures |ls| == |cmds|
    ensures forall i :: 0 <= i < |cmds| ==> ls[i] == Plain(cmds[i])
  {
    seq(|cmds|, i requires 0 <= i < |cmds| => Plain(cmds[i]))
  }

  function AsScored(rs: seq<RankedResult>): (ls: seq<Listed>)
    ensures |ls| == |rs|
    ensures forall i :: 0 <= i < |rs| ==> ls[i] == Scored(rs[i])
  {
    seq(|rs|, i requires 0 <= i < |rs| => Scored(rs[i]))
  }

  /** What `handleSearch` lists for the text in the search box. */
  function Filtered(commands: seq<Command>, searchText: String): seq<Listed>
  {
    var query := Trim(searchText);
    if query == [] then AsPlain(commands) else AsScored(Rank(query, commands))
  }

  // ---------------------------------------------------------------------------------------
  // Key navigation.
  // ---------------------------------------------------------------------------------------

  datatype Key = ArrowDown | ArrowUp | Enter | OtherKey

  /** The selection after a key press: ArrowDown moves down unless on the last entry, ArrowUp
      moves up unless on the first; a selection in [-1, length) stays there, and it stays -1
      exactly when the list is empty. */
  function NextIndex(key: Key, index: int, length: nat): (r: int)
    ensures -1 <= index < length ==> -1 <= r < length
    ensures -1 <= index < length && (index == -1 <==> length == 0) ==> (r == -1 <==> length == 0)
  {
    match key
    case ArrowDown => if index < length - 1 then index + 1 else index
    case ArrowUp => if index > 0 then index - 1 else index
    case _ => index
  }

  /** The command that Enter copies: the selected entry, when the index names one. */
  function Selected(listed: seq<Listed>, index: int): (r: Option<Command>)
    ensures r.Some? <==> 0 <= index < |listed|
    ensures r.Some? ==> r.value == CommandOf(listed[index])
  {
    if 0 <= index < |listed| then Some(CommandOf(listed[index])) else None
  }

  // ---------------------------------------------------------------------------------------
  // Deleting, adding and importing.
  // ---------------------------------------------------------------------------------------

  /** `commands.filter(cmd => cmd.id !== id)`. */
  function RemoveById(cmds: seq<Command>, id: String): seq<Command>
  {
    if cmds == [] then []
    else
      var c := cmds[|cmds| - 1];
      RemoveById(cmds[..|cmds| - 1], id) + (if c.id != id then [c] else [])
  }

  /** `piece.trim()` on every piece. */
  function TrimAll(ps: seq<String>): (r: seq<String>)
    ensures |r| == |ps|
    ensures forall k :: 0 <= k < |ps| ==> r[k] == Trim(ps[k])
  {
    seq(|ps|, k requires 0 <= k < |ps| => Trim(ps[k]))
  }

  /** `.filter(tag => tag)`: drops the empty strings. */
  function DropEmpty(ps: seq<String>): seq<String>
  {
    if ps == [] then []
    else (if ps[0] != [] then [ps[0]] else []) + DropEmpty(ps[1..])
  }

  /** `tags.split(',').map(tag => tag.trim()).filter(tag => tag)`. */
  function ParseTags(s: String): seq<String>
  {
    DropEmpty(TrimAll(SplitOn(s, ',')))
  }

  /** A tag as `ParseTags` produces it: non-empty, no comma, no surrounding whitespace. */
  predicate CleanTag(tag: String)
  {
    && Trimmed(tag)
    && forall j :: 0 <= j < |tag| ==> tag[j] != ','
  }

  /** The form of `addCommand`: `None` (the "required" alert) unless the trimmed name and
      command are both non-empty. */
  function NewCommand(id: String, name: String, value: String, description: String, tagsText: String): Option<Command>
  {
    var n := Trim(name);
    var v := Trim(value);
    if n == [] || v == [] then None
    else Some(Command(id, n, v, Trim(description), ParseTags(tagsText)))
  }

  /** The part of a parsed JSON value that the import looks at. */
  datatype JsValue = JsString(s: String) | JsOther(truthy: bool)

  /** A parsed import entry: `description` when it is a string, `tags` when it is an array. */
  datatype ImportedItem = ImportedItem(
    name: JsValue, value: JsValue, description: Option<String>, tags: Option<seq<String>>)

  /** The contents of the chosen import file. */
  datatype ImportFile = NotAnArray | Items(items: seq<ImportedItem>)

  /** `cmd.name && cmd.value && typeof cmd.name === 'string' && typeof cmd.value === 'string'`. */
  predicate IsValidImport(item: ImportedItem)
  {
    item.name.JsString? && item.name.s != [] && item.value.JsString? && item.value.s != []
  }

  /** The record an accepted entry becomes: missing description and tags default to empty. */
  function Normalize(item: ImportedItem, id: String): Command
    requires IsValidImport(item)
  {
    Command(
      id, item.name.s, item.value.s,
      match item.description case Some(d) => d case None => [],
      match item.tags case Some(ts) => ts case None => [])
  }

  /** `imported.filter(valid).map(normalise)`, the `k`-th entry taking the `k`-th id. */
  function ValidCommands(items: seq<ImportedItem>, ids: seq<String>): seq<Command>
    requires |ids| == |items|
  {
    if items == [] then []
    else
      var n := |items| - 1;
      ValidCommands(items[..n], ids[..n]) + (if IsValidImport(items[n]) then [Normalize(items[n], ids[n])] else [])
  }

  // ---------------------------------------------------------------------------------------
  // The object.
  // ---------------------------------------------------------------------------------------

  class CommandLibrary {
    var commands: seq<Command>
    var filteredCommands: seq<Listed>
    var selectedIndex: int

    /** The selection names an entry, and it is -1 exactly when nothing is listed. */
    ghost predicate Valid()
      reads this
    {
      -1 <= selectedIndex < |filteredCommands| && (selectedIndex == -1 <==> filteredCommands == [])
    }

    constructor ()
      ensures commands == [] && filteredCommands == [] && selectedIndex == -1
      ensures Valid()
    {
      commands := [];
      selectedIndex := -1;
      filteredCommands := [];
    }

    /** `handleSearch`: lists every command for a blank query, the ranking otherwise, and
        selects the first entry when there is one. */
    method HandleSearch(searchText: String)
      modifies this
      ensures commands == old(commands)
      ensures filteredCommands == Filtered(commands, searchText)
      ensures selectedIndex == if filteredCommands != [] then 0 else -1
      ensures Valid()
    {
      var query := Trim(searchText);
      if query == [] {
        filteredCommands := AsPlain(commands);
      } else {
        var results := FuzzySearch(query, commands);
        filteredCommands := AsScored(results);
      }
      selectedIndex := if |filteredCommands| > 0 then 0 else -1;
    }

    /** `handleKeyNavigation`: moves the selection, and on Enter returns the command to copy. */
    method HandleKeyNavigation(key: Key) returns (copied: Option<Command>)
      modifies this
      ensures commands == old(commands) && filteredCommands == old(filteredCommands)
      ensures selectedIndex == NextIndex(key, old(selectedIndex), |filteredCommands|)
      ensures copied == if key == Enter then Selected(filteredCommands, selectedIndex) else None
      ensures old(Valid()) ==> Valid()
    {
      copied := None;
      match key
      case ArrowDown =>
        if selectedIndex < |filteredCommands| - 1 {
          selectedIndex := selectedIndex + 1;
        }
      case ArrowUp =>
        if selectedIndex > 0 {
          selectedIndex := selectedIndex - 1;
        }
      case Enter =>
        if selectedIndex >= 0 && selectedIndex < |filteredCommands| {
          copied := Some(CommandOf(filteredCommands[selectedIndex]));
        }
      case OtherKey =>
    }

    /** `deleteCommand`: when confirmed, drops the commands with that id and searches again;
        otherwise nothing changes. */
    method DeleteCommand(id: String, confirmed: bool, searchText: String)
      modifies this
      ensures confirmed ==> commands == RemoveById(old(commands), id)
      ensures confirmed ==> filteredCommands == Filtered(commands, searchText)
      ensures confirmed ==> selectedIndex == if filteredCommands != [] then 0 else -1
      ensures !confirmed ==> commands == old(commands) && filteredCommands == old(filteredCommands)
      ensures !confirmed ==> selectedIndex == old(selectedIndex)
      ensures old(Valid()) ==> Valid()
    {
      if confirmed {
        commands := RemoveById(commands, id);
        HandleSearch(searchText);
      }
    }

    /** `addCommand`: appends the new command and searches again, or changes nothing when the
        name or the command is blank. */
    method AddCommand(name: String, value: String, description: String, tagsText: String, id: String, searchText: String)
      returns (added: bool)
      modifies this
      ensures added == NewCommand(id, name, value, description, tagsText).Some?
      ensures added ==> commands == old(commands) + [NewCommand(id, name, value, description, tagsText).value]
      ensures added ==> filteredCommands == Filtered(commands, searchText)
      ensures added ==> selectedIndex == if filteredCommands != [] then 0 else -1
      ensures !added ==> commands == old(commands) && filteredCommands == old(filteredCommands)
      ensures !added ==> selectedIndex == old(selectedIndex)
      ensures old(Valid()) ==> Valid()
    {
      var newCommand := NewCommand(id, name, value, description, tagsText);
      if newCommand.None? {
        return false;
      }
      commands := commands + [newCommand.value];
      HandleSearch(searchText);
      return true;
    }

    /** `importCommands`: appends the accepted entries of an array and searches again,
        returning how many were imported; a file that is not an array changes nothing. */
    method ImportCommands(file: ImportFile, ids: seq<String>, searchText: String) returns (count: Option<nat>)
      requires file.Items? ==> |ids| == |file.items|
      modifies this
      ensures file.Items? ==> count == Some(|ValidCommands(file.items, ids)|)
      ensures file.Items? ==> commands == old(commands) + ValidCommands(file.items, ids)
      ensures file.Items? ==> filteredCommands == Filtered(commands, searchText)
      ensures file.Items? ==> selectedIndex == if filteredCommands != [] then 0 else -1
      ensures file.NotAnArray? ==> count.None?
      ensures file.NotAnArray? ==> commands == old(commands) && filteredCommands == old(filteredCommands)
      ensures file.NotAnArray? ==> selectedIndex == old(selectedIndex)
      ensures old(Valid()) ==> Valid()
    {
      match file
      case NotAnArray =>
        return None;
      case Items(items) =>
        var validCommands := ValidCommands(items, ids);
        commands := commands + validCommands;
        HandleSearch(searchText);
        return Some(|validCommands|);
    }
  }

  // ---------------------------------------------------------------------------------------
  // Properties.
  // ---------------------------------------------------------------------------------------

  /** A blank search lists the stored commands themselves, in their order, unscored. */
  lemma FilteredPassThrough(commands: seq<Command>, searchText: String)
    requires forall i :: 0 <= i < |searchText| ==> IsSpace(searchText[i])
    ensures |Filtered(commands, searchText)| == |commands|
    ensures forall i :: 0 <= i < |commands| ==>
      Filtered(commands, searchText)[i].Plain? && CommandOf(Filtered(commands, searchText)[i]) == commands[i]
  {
  }

  /** A non-blank search lists ranked results only, highest score first, each above the
      threshold and each for a stored command. */
  lemma FilteredSearchResults(commands: seq<Command>, searchText: String)
    requires exists i :: 0 <= i < |searchText| && !IsSpace(searchText[i])
    ensures var ls := Filtered(commands, searchText);
      && (forall i :: 0 <= i < |ls| ==> ls[i].Scored? && ls[i].result.score > Threshold)
      && (forall i :: 0 <= i < |ls| ==> CommandOf(ls[i]) in commands)
      && (forall i, j :: 0 <= i < j < |ls| ==> ls[i].result.score >= ls[j].result.score)
  {
    var query := Trim(searchText);
    assert query != [];
    assert Filtered(commands, searchText) == AsScored(Rank(query, commands));
    RankEntries(query, commands);
    AsScoredProperties(Rank(query, commands), commands);
  }

  /** Ranked results above the threshold, for stored commands, highest first, keep all three
      properties once listed. */
  lemma AsScoredProperties(rs: seq<RankedResult>, commands: seq<Command>)
    requires forall i :: 0 <= i < |rs| ==> rs[i].score > Threshold && rs[i].command in commands
    requires SortedDesc(rs)
    ensures var ls := AsScored(rs);
      && (forall i :: 0 <= i < |ls| ==> ls[i].Scored? && ls[i].result.score > Threshold)
      && (forall i :: 0 <= i < |ls| ==> CommandOf(ls[i]) in commands)
      && (forall i, j :: 0 <= i < j < |ls| ==> ls[i].result.score >= ls[j].result.score)
  {
    var ls := AsScored(rs);
    forall i | 0 <= i < |ls|
      ensures ls[i].Scored? && ls[i].result.score > Threshold && CommandOf(ls[i]) in commands
    {
      assert ls[i] == Scored(rs[i]);
    }
    forall i, j | 0 <= i < j < |ls|
      ensures ls[i].result.score >= ls[j].result.score
    {
      assert ls[i] == Scored(rs[i]) && ls[j] == Scored(rs[j]);
    }
  }

  /** A non-blank search lists every command whose total for the lower-cased trimmed query
      exceeds the threshold. */
  lemma FilteredSearchComplete(commands: seq<Command>, searchText: String)
    requires exists i :: 0 <= i < |searchText| && !IsSpace(searchText[i])
    ensures forall c :: c in commands && TotalScore(Lower(Trim(searchText)), c) > Threshold ==>
      Scored(Annotate(Lower(Trim(searchText)), c)) in Filtered(commands, searchText)
  {
    var query := Trim(searchText);
    assert query != [];
    var q := Lower(query);
    var rs := Rank(query, commands);
    var ls := AsScored(rs);
    assert Filtered(commands, searchText) == ls;
    RankProperties(query, commands);
    forall c | c in commands && TotalScore(q, c) > Threshold
      ensures Scored(Annotate(q, c)) in ls
    {
      var k :| 0 <= k < |rs| && rs[k] == Annotate(q, c);
      assert ls[k] == Scored(rs[k]);
    }
  }

  /** ArrowUp undoes an ArrowDown that moved, and ArrowDown undoes an ArrowUp that moved. */
  lemma NavigationInverse(index: int, length: nat)
    ensures 0 <= index < length - 1 ==> NextIndex(ArrowUp, NextIndex(ArrowDown, index, length), length) == index
    ensures 0 < index < length ==> NextIndex(ArrowDown, NextIndex(ArrowUp, index, length), length) == index
  {
  }

  /** Repeated ArrowDown presses from the first entry reach the last entry and stay there. */
  lemma {:induction false} ArrowDownSaturates(index: int, length: nat, presses: nat)
    requires 0 <= index < length
    ensures DownTimes(index, length, presses) == Min(index + presses, length - 1)
  {
    if presses > 0 {
      ArrowDownSaturates(index, length, presses - 1);
    }
  }

  function DownTimes(index: int, length: nat, presses: nat): int
  {
    if presses == 0 then index else NextIndex(ArrowDown, DownTimes(index, length, presses - 1), length)
  }

  /** Deleting keeps exactly the commands with another id. */
  lemma {:induction false} RemoveByIdMembers(cmds: seq<Command>, id: String)
    ensures forall c :: c in RemoveById(cmds, id) <==> c in cmds && c.id != id
    ensures |RemoveById(cmds, id)| <= |cmds|
  {
    if cmds != [] {
      var n := |cmds| - 1;
      RemoveByIdMembers(cmds[..n], id);
      assert cmds == cmds[..n] + [cmds[n]];
    }
  }

  /** Deleting an id that no command has changes nothing. */
  lemma {:induction false} RemoveByIdAbsent(cmds: seq<Command>, id: String)
    requires forall k :: 0 <= k < |cmds| ==> cmds[k].id != id
    ensures RemoveById(cmds, id) == cmds
  {
    if cmds != [] {
      var n := |cmds| - 1;
      RemoveByIdAbsent(cmds[..n], id);
      assert cmds == cmds[..n] + [cmds[n]];
    }
  }

  /** Deleting twice is deleting once. */
  lemma RemoveByIdIdempotent(cmds: seq<Command>, id: String)
    ensures RemoveById(RemoveById(cmds, id), id) == RemoveById(cmds, id)
  {
    var r := RemoveById(cmds, id);
    RemoveByIdMembers(cmds, id);
    assert forall k :: 0 <= k < |r| ==> r[k] in r;
    RemoveByIdAbsent(r, id);
  }

  /** Every parsed tag is clean. */
  lemma {:induction false} DropEmptyTrimmed(ps: seq<String>)
    requires forall k :: 0 <= k < |ps| ==> ps[k] == [] || Trimmed(ps[k])
    requires forall k, j :: 0 <= k < |ps| && 0 <= j < |ps[k]| ==> ps[k][j] != ','
    ensures forall k :: 0 <= k < |DropEmpty(ps)| ==> CleanTag(DropEmpty(ps)[k])
  {
    if ps != [] {
      DropEmptyTrimmed(ps[1..]);
      var rest := DropEmpty(ps[1..]);
      assert forall k :: 0 <= k < |rest| ==> CleanTag(rest[k]);
      assert ps[0] != [] ==> CleanTag(ps[0]) by {
        assert forall j :: 0 <= j < |ps[0]| ==> ps[0][j] != ',';
      }
    }
  }

  lemma TrimmedKeepsNoComma(s: String)
    requires forall j :: 0 <= j < |s| ==> s[j] != ','
    ensures forall j :: 0 <= j < |Trim(s)| ==> Trim(s)[j] != ','
  {
    var t := TrimStart(s);
    NoCommaSuffix(s, t);
    NoCommaPrefix(t, TrimEnd(t));
  }

  lemma NoCommaSuffix(s: String, t: String)
    requires forall j :: 0 <= j < |s| ==> s[j] != ','
    requires |t| <= |s| && t == s[|s| - |t|..]
    ensures forall j :: 0 <= j < |t| ==> t[j] != ','
  {
    forall j | 0 <= j < |t|
      ensures t[j] != ','
    {
      assert t[j] == s[|s| - |t| + j];
    }
  }

  lemma NoCommaPrefix(s: String, t: String)
    requires forall j :: 0 <= j < |s| ==> s[j] != ','
    requires |t| <= |s| && t == s[..|t|]
    ensures forall j :: 0 <= j < |t| ==> t[j] != ','
  {
    forall j | 0 <= j < |t|
      ensures t[j] != ','
    {
      assert t[j] == s[j];
    }
  }

  lemma ParseTagsClean(s: String)
    ensures forall k :: 0 <= k < |ParseTags(s)| ==> CleanTag(ParseTags(s)[k])
  {
    var ps := SplitOn(s, ',');
    var ts := TrimAll(ps);
    forall k | 0 <= k < |ps|
      ensures forall j :: 0 <= j < |ts[k]| ==> ts[k][j] != ','
    {
      assert forall j :: 0 <= j < |ps[k]| ==> ps[k][j] != ',';
      TrimmedKeepsNoComma(ps[k]);
    }
    DropEmptyTrimmed(ts);
  }

  /** Clean tags written out with commas parse back to themselves. */
  lemma ParseTagsJoin(tags: seq<String>)
    requires forall k :: 0 <= k < |tags| ==> CleanTag(tags[k])
    ensures ParseTags(Join(tags, ',')) == tags
  {
    if tags == [] {
      ParseTagsEmpty();
    } else {
      CleanTagsSplit(tags);
      CleanTagsTrimmed(tags);
      DropEmptyKeepsNonEmpty(tags);
    }
  }

  lemma ParseTagsEmpty()
    ensures ParseTags([]) == []
  {
    assert SplitOn([], ',') == [[]];
    assert TrimAll([[]]) == [[]];
    assert DropEmpty([[]]) == [] + DropEmpty([]);
  }

  lemma CleanTagsSplit(tags: seq<String>)
    requires |tags| > 0
    requires forall k :: 0 <= k < |tags| ==> CleanTag(tags[k])
    ensures SplitOn(Join(tags, ','), ',') == tags
  {
    forall k, j | 0 <= k < |tags| && 0 <= j < |tags[k]|
      ensures tags[k][j] != ','
    {
      assert CleanTag(tags[k]);
    }
    SplitOnJoin(tags, ',');
  }

  lemma CleanTagsTrimmed(tags: seq<String>)
    requires forall k :: 0 <= k < |tags| ==> CleanTag(tags[k])
    ensures TrimAll(tags) == tags
  {
    forall k | 0 <= k < |tags|
      ensures Trim(tags[k]) == tags[k]
    {
      assert CleanTag(tags[k]);
    }
  }

  lemma {:induction false} DropEmptyKeepsNonEmpty(ps: seq<String>)
    requires forall k :: 0 <= k < |ps| ==> ps[k] != []
    ensures DropEmpty(ps) == ps
  {
    if ps != [] {
      DropEmptyKeepsNonEmpty(ps[1..]);
      assert [ps[0]] + ps[1..] == ps;
    }
  }

  /** The form is accepted exactly when the name and the command hold a non-space character;
      the new command then has the trimmed, non-empty name and command and clean tags. */
  lemma NewCommandProperties(id: String, name: String, value: String, description: String, tagsText: String)
    ensures NewCommand(id, name, value, description, tagsText).Some? <==>
      (exists i :: 0 <= i < |name| && !IsSpace(name[i])) && (exists i :: 0 <= i < |value| && !IsSpace(value[i]))
    ensures var r := NewCommand(id, name, value, description, tagsText);
      r.Some? ==> && r.value.id == id
                  && Trimmed(r.value.name) && Trimmed(r.value.value)
                  && (forall k :: 0 <= k < |r.value.tags| ==> CleanTag(r.value.tags[k]))
  {
    var n := Trim(name);
    var v := Trim(value);
    assert (n == []) == (forall i :: 0 <= i < |name| ==> IsSpace(name[i]));
    assert (v == []) == (forall i :: 0 <= i < |value| ==> IsSpace(value[i]));
    ParseTagsClean(tagsText);
    assert n != [] ==> Trimmed(n);
    assert v != [] ==> Trimmed(v);
  }

  /** The import keeps exactly the entries with non-empty string name and value, normalised,
      and never more entries than given. */
  lemma {:induction false} ValidCommandsProperties(items: seq<ImportedItem>, ids: seq<String>)
    requires |ids| == |items|
    ensures |ValidCommands(items, ids)| <= |items|
    ensures forall c :: c in ValidCommands(items, ids) ==>
      exists k :: 0 <= k < |items| && IsValidImport(items[k]) && c == Normalize(items[k], ids[k])
    ensures forall k :: 0 <= k < |items| && IsValidImport(items[k]) ==>
      Normalize(items[k], ids[k]) in ValidCommands(items, ids)
    ensures forall c :: c in ValidCommands(items, ids) ==> c.name != [] && c.value != []
  {
    if items != [] {
      var n := |items| - 1;
      ValidCommandsProperties(items[..n], ids[..n]);
      assert forall k :: 0 <= k < n ==> items[..n][k] == items[k] && ids[..n][k] == ids[k];
      forall c | c in ValidCommands(items, ids)
        ensures exists k :: 0 <= k < |items| && IsValidImport(items[k]) && c == Normalize(items[k], ids[k])
      {
        if c in ValidCommands(items[..n], ids[..n]) {
          var k :| 0 <= k < n && IsValidImport(items[..n][k]) && c == Normalize(items[..n][k], ids[..n][k]);
          assert items[..n][k] == items[k];
        }
      }
    }
  }
}

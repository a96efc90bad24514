/** The boot menu (examples/main.py): list the Python files on the
    filesystem as titled applications sorted by title, let buttons A and X
    move a wrapping selection, and hand back the file chosen with Y. */
module MainMenu {
  import opened Wrappers
  import opened PySemantics
  import Bytes

  // ---------------------------------------------------------------
  // Strings as MicroPython treats them

  /** `str.upper` on one character: only a-z change. */
  function Upper(c: char): (u: char)
    ensures 'a' <= c <= 'z' ==> 'A' <= u <= 'Z' && u as int == c as int - 32
    ensures !('a' <= c <= 'z') ==> u == c
  {
    if 'a' <= c <= 'z' then (c as int - 32) as char else c
  }

  /** `s.split("_")`: the pieces between underscores, empty ones included,
      and one empty piece for the empty string. */
  function Split(s: string): (parts: seq<string>)
    ensures |parts| >= 1
  {
    if |s| == 0 then [""]
    else
      var rest := Split(s[1..]);
      if s[0] == '_' then [""] + rest
      else [[s[0]] + rest[0]] + rest[1..]
  }

  /** `v[:1].upper() + v[1:]` */
  function Capitalize(v: string): (r: string)
    ensures |r| == |v|
  {
    if |v| == 0 then "" else [Upper(v[0])] + v[1..]
  }

  function CapitalizeAll(parts: seq<string>): (r: seq<string>)
    ensures |r| == |parts|
  {
    if |parts| == 0 then [] else [Capitalize(parts[0])] + CapitalizeAll(parts[1..])
  }

  /** `" ".join([head] + rest)` */
  function Joined(head: string, rest: seq<string>): string
    decreases |rest|
  {
    if |rest| == 0 then head else head + " " + Joined(rest[0], rest[1..])
  }

  /** `file.endswith(".py")` */
  predicate IsPython(file: string)
  {
    |file| >= 3 && file[|file| - 3..] == ".py"
  }

  /** The title of "something_or_other.py": the name without ".py" split on
      '_', each piece with its first character upper-cased, joined by
      spaces. */
  function Title(file: string): (title: string)
    requires IsPython(file)
  {
    var parts := CapitalizeAll(Split(file[..|file| - 3]));
    Joined(parts[0], parts[1..])
  }

  /** The title character by character: an underscore becomes a space, a
      character at the start of the name or just after an underscore is
      upper-cased (at the start only when atStart), and the rest is kept. */
  function TitleRef(s: string, atStart: bool): (r: string)
    ensures |r| == |s|
  {
    seq(|s|, k requires 0 <= k < |s| =>
      if s[k] == '_' then ' '
      else if (k == 0 && atStart) || (k > 0 && s[k - 1] == '_') then Upper(s[k])
      else s[k])
  }

  lemma JoinedPrefix(c: char, head: string, rest: seq<string>)
    ensures Joined([c] + head, rest) == [c] + Joined(head, rest)
  {
    if |rest| > 0 {
      assert [c] + head + " " + Joined(rest[0], rest[1..]) == [c] + (head + " " + Joined(rest[0], rest[1..]));
    }
  }

  /** The split-capitalise-join construction computes the character-wise
      title, whether or not the first piece is capitalised. */
  lemma TitleRefUnderscore(s: string, atStart: bool)
    requires |s| > 0 && s[0] == '_'
    ensures TitleRef(s, atStart) == [' '] + TitleRef(s[1..], true)
  {
    var a, b := TitleRef(s, atStart), [' '] + TitleRef(s[1..], true);
    forall k | 0 <= k < |s| ensures a[k] == b[k] {
      if k > 0 {
        assert s[1..][k - 1] == s[k];
        if k > 1 {
          assert s[1..][k - 2] == s[k - 1];
        }
      }
    }
  }

  lemma TitleRefPlain(s: string)
    requires |s| > 0 && s[0] != '_'
    ensures TitleRef(s, false) == [s[0]] + TitleRef(s[1..], false)
    ensures TitleRef(s, true) == [Upper(s[0])] + TitleRef(s[1..], false)
  {
    var a, b := TitleRef(s, false), [s[0]] + TitleRef(s[1..], false);
    var c, d := TitleRef(s, true), [Upper(s[0])] + TitleRef(s[1..], false);
    forall k | 0 <= k < |s| ensures a[k] == b[k] && c[k] == d[k] {
      if k > 0 {
        assert s[1..][k - 1] == s[k];
        if k > 1 {
          assert s[1..][k - 2] == s[k - 1];
        }
      }
    }
  }

  lemma {:induction false} TitleMatchesRef(s: string)
    ensures var parts := Split(s);
      Joined(parts[0], CapitalizeAll(parts[1..])) == TitleRef(s, false)
      && Joined(Capitalize(parts[0]), CapitalizeAll(parts[1..])) == TitleRef(s, true)
  {
    if |s| > 0 {
      var t := s[1..];
      TitleMatchesRef(t);
      var tp := Split(t);
      if s[0] == '_' {
        assert Split(s)[1..] == tp;
        assert CapitalizeAll(tp) == [Capitalize(tp[0])] + CapitalizeAll(tp[1..]);
        var j := Joined(Capitalize(tp[0]), CapitalizeAll(tp[1..]));
        assert Joined("", CapitalizeAll(tp)) == "" + " " + j;
        TitleRefUnderscore(s, false);
        TitleRefUnderscore(s, true);
      } else {
        assert Split(s)[0] == [s[0]] + tp[0] && Split(s)[1..] == tp[1..];
        JoinedPrefix(s[0], tp[0], CapitalizeAll(tp[1..]));
        JoinedPrefix(Upper(s[0]), tp[0], CapitalizeAll(tp[1..]));
        assert Capitalize([s[0]] + tp[0]) == [Upper(s[0])] + tp[0];
        TitleRefPlain(s);
      }
    }
  }

  /** The title has one character per character of the stem: spaces for
      underscores, upper case at the start of each word, the rest as it
      was. */
  lemma TitleCharacters(file: string)
    requires IsPython(file)
    ensures Title(file) == TitleRef(file[..|file| - 3], true)
    ensures |Title(file)| == |file| - 3
  {
    var stem := file[..|file| - 3];
    TitleMatchesRef(stem);
    var parts := Split(stem);
    assert CapitalizeAll(parts)[0] == Capitalize(parts[0]);
    assert CapitalizeAll(parts)[1..] == CapitalizeAll(parts[1..]);
  }

  // ---------------------------------------------------------------
  // The application list

  datatype App = App(file: string, title: string)

  /** `a < b` on str: code point by code point, a proper prefix first. */
  predicate Less(a: string, b: string)
  {
    |b| > 0 && (|a| == 0 || a[0] < b[0] || (a[0] == b[0] && Less(a[1..], b[1..])))
  }

  lemma {:induction false} LessAsymmetric(a: string, b: string)
    ensures Less(a, b) ==> !Less(b, a)
  {
    if |a| > 0 && |b| > 0 && a[0] == b[0] {
      LessAsymmetric(a[1..], b[1..]);
    }
  }

  lemma {:induction false} NotLessTransitive(a: string, b: string, c: string)
    requires !Less(b, a) && !Less(c, b)
    ensures !Less(c, a)
  {
    if |a| > 0 && |b| > 0 && |c| > 0 && a[0] == b[0] == c[0] {
      NotLessTransitive(a[1..], b[1..], c[1..]);
    }
  }

  /** Each title no smaller than the one before. */
  predicate SortedByTitle(apps: seq<App>)
  {
    forall i :: 0 < i < |apps| ==> !Less(apps[i].title, apps[i - 1].title)
  }

  /** Insert after every entry whose title is not greater, as a stable
      sort does with a later element. */
  function Insert(a: App, apps: seq<App>): (r: seq<App>)
    requires SortedByTitle(apps)
    ensures SortedByTitle(r) && multiset(r) == multiset(apps) + multiset{a}
    ensures |apps| > 0 ==> r[0] == a || r[0] == apps[0]
  {
    if |apps| == 0 then [a]
    else if Less(a.title, apps[0].title) then
      LessAsymmetric(a.title, apps[0].title);
      [a] + apps
    else
      assert apps == [apps[0]] + apps[1..];
      [apps[0]] + Insert(a, apps[1..])
  }

  /** `sorted(applications, key=lambda x: x["title"])` */
  function SortByTitle(apps: seq<App>): (r: seq<App>)
    ensures SortedByTitle(r) && multiset(r) == multiset(apps)
  {
    if |apps| == 0 then []
    else
      assert apps == apps[..|apps| - 1] + [apps[|apps| - 1]];
      Insert(apps[|apps| - 1], SortByTitle(apps[..|apps| - 1]))
  }

  /** Sorted adjacent pairs make every pair ordered. */
  lemma {:induction false} SortedAllPairs(apps: seq<App>, i: nat, j: nat)
    requires SortedByTitle(apps) && i <= j < |apps|
    ensures !Less(apps[j].title, apps[i].title)
    decreases j - i
  {
    if i < j {
      SortedAllPairs(apps, i, j - 1);
      NotLessTransitive(apps[i].title, apps[j - 1].title, apps[j].title);
    } else {
      LessAsymmetricSelf(apps[i].title);
    }
  }

  lemma {:induction false} LessAsymmetricSelf(a: string)
    ensures !Less(a, a)
  {
    if |a| > 0 {
      LessAsymmetricSelf(a[1..]);
    }
  }

  /** The loop over `listdir()`: every ".py" file except "main.py". */
  function Listed(files: seq<string>): (apps: seq<App>)
  {
    if |files| == 0 then []
    else
      var rest := Listed(files[1..]);
      var f := files[0];
      if IsPython(f) && f != "main.py" then [App(f, Title(f))] + rest else rest
  }

  lemma {:induction false} ListedMeaning(files: seq<string>)
    ensures forall a :: a in Listed(files) <==>
      a.file in files && IsPython(a.file) && a.file != "main.py" && a.title == Title(a.file)
  {
    if |files| > 0 {
      ListedMeaning(files[1..]);
      assert files == [files[0]] + files[1..];
    }
  }

  /** `get_applications()`, given what `listdir()` returned. */
  function GetApplications(files: seq<string>): (apps: seq<App>)
  {
    SortByTitle(Listed(files))
  }

  /** An application is offered exactly when its file is a ".py" file other
      than "main.py", with that file's title; the list is in title order
      throughout, and holds each listed file as often as listdir named it. */
  lemma GetApplicationsMeaning(files: seq<string>)
    ensures forall a :: a in GetApplications(files) <==>
      a.file in files && IsPython(a.file) && a.file != "main.py" && a.title == Title(a.file)
    ensures forall i, j :: 0 <= i <= j < |GetApplications(files)| ==>
      !Less(GetApplications(files)[j].title, GetApplications(files)[i].title)
    ensures multiset(GetApplications(files)) == multiset(Listed(files))
  {
    ListedMeaning(files);
    var apps := GetApplications(files);
    forall a ensures a in apps <==> a in Listed(files) {
      assert a in apps <==> a in multiset(apps);
      assert a in Listed(files) <==> a in multiset(Listed(files));
    }
    forall i, j | 0 <= i <= j < |apps| ensures !Less(apps[j].title, apps[i].title) {
      SortedAllPairs(apps, i, j);
    }
  }

  // ---------------------------------------------------------------
  // The menu loop

  const REPEAT_MS := 250

  /** Up at the top wraps to the last entry. */
  function Up(target: int, count: nat): (r: int)
    ensures count > 0 && 0 <= target < count ==> 0 <= r < count
    ensures target > 0 ==> r == target - 1
    ensures target == 0 ==> r == count - 1
  {
    if target - 1 >= 0 then target - 1 else count - 1
  }

  /** Down at the bottom wraps to the first. */
  function Down(target: int, count: nat): (r: int)
    ensures count > 0 && -1 <= target < count ==> 0 <= r < count
    ensures target + 1 < count ==> r == target + 1
    ensures target + 1 >= count ==> r == 0
  {
    if target + 1 < count then target + 1 else 0
  }

  /** k presses of up, or of down, move the target k places round the
      list. */
  lemma {:induction false} UpDownCycle(target: int, count: nat, k: nat)
    requires 0 <= target < count
    ensures UpTimes(target, count, k) == (target - k) % count
    ensures DownTimes(target, count, k) == (target + k) % count
  {
    if k == 0 {
      Bytes.ModUnique(target, count, 0, target);
    } else {
      UpDownCycle(target, count, k - 1);
      var u := UpTimes(target, count, k - 1);
      var d := DownTimes(target, count, k - 1);
      assert 0 <= u < count && 0 <= d < count;
      ModStep(target - k, count);
      ModStep(target + k - 1, count);
    }
  }

  /** A full circle of presses comes back to the same entry. */
  lemma FullCircle(target: int, count: nat)
    requires 0 <= target < count
    ensures UpTimes(target, count, count) == target && DownTimes(target, count, count) == target
  {
    UpDownCycle(target, count, count);
    Bytes.ModUnique(target - count, count, -1, target);
    Bytes.ModUnique(target + count, count, 1, target);
  }

  lemma ModStep(x: int, count: nat)
    requires count > 0
    ensures ((x + 1) % count == 0 ==> x % count == count - 1)
    ensures ((x + 1) % count > 0 ==> x % count == (x + 1) % count - 1)
    ensures (x % count + 1 < count ==> (x + 1) % count == x % count + 1)
    ensures (x % count + 1 >= count ==> (x + 1) % count == 0)
  {
    var q, r := x / count, x % count;
    assert x == count * q + r;
    if r + 1 < count {
      Bytes.ModUnique(x + 1, count, q, r + 1);
    } else {
      Bytes.ModUnique(x + 1, count, q + 1, 0);
    }
  }

  function UpTimes(target: int, count: nat, k: nat): int
  {
    if k == 0 then target else Up(UpTimes(target, count, k - 1), count)
  }

  function DownTimes(target: int, count: nat, k: nat): int
  {
    if k == 0 then target else Down(DownTimes(target, count, k - 1), count)
  }

  /** The menu's locals in `menu()`. */
  class Menu {
    const applications: seq<App>
    var selectedItem: int
    var scrollPosition: real
    var targetScrollPosition: int
    var lastUp: int
    var lastDown: int

    constructor (files: seq<string>)
      ensures applications == GetApplications(files)
      ensures selectedItem == 2 && scrollPosition == 2.0 && targetScrollPosition == 2
      ensures lastUp == 0 && lastDown == 0
    {
      applications := GetApplications(files);
      selectedItem, scrollPosition, targetScrollPosition := 2, 2.0, 2;
      lastUp, lastDown := 0, 0;
    }

    /** One pass of the loop at time `now`, with the three buttons' states.
        Y hands back the file of the entry selected on the previous pass,
        or IndexError where Python's index (negative from the end) misses;
        otherwise the target moves, wrapping, the scroll eases a fifth of
        the way to it and the selection follows it. */
    method Step(now: int, up: bool, down: bool, select: bool) returns (launch: Option<Result<string, Exception>>)
      modifies this
      ensures var count := |applications|;
        var t1 := if up && now - old(lastUp) > REPEAT_MS then Up(old(targetScrollPosition), count) else old(targetScrollPosition);
        var t2 := if down && now - old(lastDown) > REPEAT_MS then Down(t1, count) else t1;
        targetScrollPosition == t2
        && lastUp == (if up && now - old(lastUp) > REPEAT_MS then now else old(lastUp))
        && lastDown == (if down && now - old(lastDown) > REPEAT_MS then now else old(lastDown))
        && (select ==>
              launch == Some(match PyIndex(count, old(selectedItem))
                             case Some(i) => Ok(applications[i].file)
                             case None => Err(IndexError))
              && selectedItem == old(selectedItem) && scrollPosition == old(scrollPosition))
        && (!select ==>
              launch == None && selectedItem == t2
              && scrollPosition == old(scrollPosition) + (t2 as real - old(scrollPosition)) / 5.0)
    {
      if up && now - lastUp > REPEAT_MS {
        targetScrollPosition := targetScrollPosition - 1;
        targetScrollPosition := if targetScrollPosition >= 0 then targetScrollPosition else |applications| - 1;
        lastUp := now;
      }
      if down && now - lastDown > REPEAT_MS {
        targetScrollPosition := targetScrollPosition + 1;
        targetScrollPosition := if targetScrollPosition < |applications| then targetScrollPosition else 0;
        lastDown := now;
      }
      if select {
        match PyIndex(|applications|, selectedItem)
        case Some(i) =>
          return Some(Ok(applications[i].file));
        case None =>
          return Some(Err(IndexError));
      }
      scrollPosition := scrollPosition + (targetScrollPosition as real - scrollPosition) / 5.0;
      selectedItem := targetScrollPosition;
      return None;
    }
  }

  /** A target inside the list stays inside it whatever is pressed, and the
      selection then names a real entry. */
  lemma TargetStaysInRange(target: int, count: nat, up: bool, down: bool)
    requires 0 <= target < count
    ensures var t1 := if up then Up(target, count) else target;
      var t2 := if down then Down(t1, count) else t1;
      0 <= t2 < count && PyIndex(count, t2) == Some(t2)
  {
  }

  /** The first pass starts from entry 2: with fewer than three
      applications, pressing Y straight away raises IndexError, and with
      one application pressing up first leaves the target at 1, past the
      end. */
  lemma FewAppsFirstSelect(count: nat)
    requires count < 3
    ensures PyIndex(count, 2) == None
    ensures count == 1 ==> Up(2, count) == 1 && PyIndex(count, Up(2, count)) == None
  {
  }
}

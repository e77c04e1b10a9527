/**
 * The pure part of the `menu` command (kantine.py:109-119): the ITU menus
 * followed by the KUA menus, each shown with its entry for today, joined into
 * one chat message.  The chat client, the deferral and the follow-up send are
 * outside the model, and today's weekday is a parameter.
 */
module Bot {
  import opened Wrappers
  import opened Text
  import opened Canteen
  import Kua
  import Itu

  /** The first line of every menu message. */
  const Header: string := "**Today's Menu** \U{1F468}\U{200D}\U{1F373}"
  const Separator: string := "\n\n"

  datatype MenuError =
    | DayOutOfRange(source: nat)       // `menu[day]` raises IndexError for this source
    | KuaRaised(error: Kua.KuaError)   // `get_kua_dishes` raised

  /** The message part for one source: its title in bold, then its entry for `day`. */
  function Section(m: Menu, day: nat): string
    requires day < |m.days|
  {
    "**" + m.title + "**\n" + m.days[day]
  }

  /** Every source has an entry for `day`. */
  predicate HasDay(dishes: seq<Menu>, day: nat) {
    forall k :: 0 <= k < |dishes| ==> day < |dishes[k].days|
  }

  /** The sections of all sources, in order. */
  function Sections(dishes: seq<Menu>, day: nat): seq<string>
    requires HasDay(dishes, day)
  {
    seq(|dishes|, k requires 0 <= k < |dishes| && HasDay(dishes, day) => Section(dishes[k], day))
  }

  /**
   * The loop of kantine.py:115-119: the message is the header and one section
   * per source, separated by blank lines; it fails at the first source that
   * has no entry for `day`.
   */
  method AssembleMessage(dishes: seq<Menu>, day: nat) returns (r: Result<string, MenuError>)
    ensures r.Success? <==> HasDay(dishes, day)
    ensures r.Success? ==> r.value == Join([Header] + Sections(dishes, day), Separator)
    ensures r.Failure? ==> r.error.DayOutOfRange? && r.error.source < |dishes|
    ensures r.Failure? ==> |dishes[r.error.source].days| <= day && HasDay(dishes[..r.error.source], day)
  {
    var msg := [Header];
    for k := 0 to |dishes|
      invariant HasDay(dishes[..k], day)
      invariant msg == [Header] + Sections(dishes[..k], day)
    {
      if day >= |dishes[k].days| {
        return Failure(DayOutOfRange(k));
      }
      var m := dishes[k];
      msg := msg + ["**" + m.title + "**\n" + m.days[day]];
      assert HasDay(dishes[..k + 1], day);
    }
    assert dishes[..|dishes|] == dishes;
    return Success(Join(msg, Separator));
  }

  /** The message opens with the header and shows every source's entry for the day. */
  lemma MessageShowsEverySection(dishes: seq<Menu>, day: nat, k: nat)
    requires HasDay(dishes, day) && k < |dishes|
    ensures StartsWith(Join([Header] + Sections(dishes, day), Separator), Header)
    ensures Contains(Join([Header] + Sections(dishes, day), Separator), Section(dishes[k], day))
  {
    var parts := [Header] + Sections(dishes, day);
    assert parts[k + 1] == Section(dishes[k], day);
    JoinContainsParts(parts, Separator, k + 1);
    assert Join(parts, Separator)[..|Header|] == Header;
  }

  /** Today's entry exists in a concatenation exactly when it exists in both parts. */
  lemma HasDayAppend(a: seq<Menu>, b: seq<Menu>, day: nat)
    ensures HasDay(a + b, day) <==> HasDay(a, day) && HasDay(b, day)
  {
    if HasDay(a + b, day) {
      forall k | 0 <= k < |a| ensures day < |a[k].days| {
        assert (a + b)[k] == a[k];
      }
      forall k | 0 <= k < |b| ensures day < |b[k].days| {
        assert (a + b)[|a| + k] == b[k];
      }
    }
  }

  /** The ITU menus have an entry for every weekday Monday to Friday and for no later day. */
  lemma ItuHasDay(ocr: Itu.Region -> string, day: nat)
    ensures HasDay(Itu.ItuMenus(ocr), day) <==> day < |Itu.StartX|
  {
    var itu := Itu.ItuMenus(ocr);
    if HasDay(itu, day) {
      assert day < |itu[0].days|;
    }
  }

  /** The message the `menu` command sends, or why it raises instead. */
  function MenuMessage(ocr: Itu.Region -> string, blocks: seq<string>, day: nat): Result<string, MenuError> {
    match Kua.KuaMenus(blocks)
    case Failure(e) => Failure(KuaRaised(e))
    case Success(kua) =>
      var dishes := Itu.ItuMenus(ocr) + kua;
      if HasDay(dishes, day) then Success(Join([Header] + Sections(dishes, day), Separator))
      else Failure(DayOutOfRange(FirstWithoutDay(dishes, day)))
  }

  /** The position of the first source without an entry for `day`. */
  function FirstWithoutDay(dishes: seq<Menu>, day: nat): (k: nat)
    requires !HasDay(dishes, day)
    ensures k < |dishes| && |dishes[k].days| <= day && HasDay(dishes[..k], day)
  {
    if |dishes[0].days| <= day then 0
    else
      var k := FirstWithoutDay(dishes[1..], day);
      assert dishes[..k + 1] == [dishes[0]] + dishes[1..][..k];
      k + 1
  }

  /**
   * The `menu` command for the given weekday (0 is Monday, as
   * `datetime.weekday()` returns): ITU first, then KUA.
   */
  method MenuCommand(ocr: Itu.Region -> string, blocks: seq<string>, day: nat) returns (r: Result<string, MenuError>)
    ensures r == MenuMessage(ocr, blocks, day)
  {
    var itu := Itu.GetItuDishes(ocr);
    var kua := Kua.GetKuaDishes(blocks);
    if kua.Failure? {
      return Failure(KuaRaised(kua.error));
    }
    var dishes := itu + kua.value;
    r := AssembleMessage(dishes, day);
    if r.Failure? {
      FirstIsUnique(dishes, day, r.error.source);
    }
  }

  /** Only one position is the first source without an entry for `day`. */
  lemma FirstIsUnique(dishes: seq<Menu>, day: nat, k: nat)
    requires k < |dishes| && |dishes[k].days| <= day && HasDay(dishes[..k], day)
    ensures !HasDay(dishes, day) && FirstWithoutDay(dishes, day) == k
  {
    var f := FirstWithoutDay(dishes, day);
  }

  /**
   * The command succeeds exactly when the KUA page parses, today is Monday to
   * Friday, and every KUA menu has an entry for today; the message then opens
   * with the header and shows every source's section.
   */
  lemma MenuMessageSucceeds(ocr: Itu.Region -> string, blocks: seq<string>, day: nat)
    ensures MenuMessage(ocr, blocks, day).Success?
        <==> Kua.KuaMenus(blocks).Success? && day < |Itu.StartX| && HasDay(Kua.KuaMenus(blocks).value, day)
    ensures MenuMessage(ocr, blocks, day).Success? ==> StartsWith(MenuMessage(ocr, blocks, day).value, Header)
  {
    if Kua.KuaMenus(blocks).Success? {
      var dishes := Itu.ItuMenus(ocr) + Kua.KuaMenus(blocks).value;
      HasDayAppend(Itu.ItuMenus(ocr), Kua.KuaMenus(blocks).value, day);
      ItuHasDay(ocr, day);
      if HasDay(dishes, day) {
        MessageShowsEverySection(dishes, day, 0);
      }
    }
  }

  /** On Saturday and Sunday the command always fails, at the first ITU menu. */
  lemma WeekendFails(ocr: Itu.Region -> string, blocks: seq<string>, day: nat)
    requires 5 <= day < 7 && Kua.KuaMenus(blocks).Success?
    ensures MenuMessage(ocr, blocks, day) == Failure(DayOutOfRange(0))
  {
    var dishes := Itu.ItuMenus(ocr) + Kua.KuaMenus(blocks).value;
    assert dishes[0] == Itu.ItuMenus(ocr)[0];
    FirstIsUnique(dishes, day, 0);
  }

  /**
   * On a Friday the command fails whenever a KUA block lists `Mandag` to
   * `Fredag`: that block yields only four entries.
   */
  lemma FridayFailsOnFullWeek(ocr: Itu.Region -> string, blocks: seq<string>, j: nat, front: seq<string>,
                              mon: seq<string>, tue: seq<string>, wed: seq<string>, thu: seq<string>, fri: seq<string>)
    requires j < |blocks|
    requires Kua.CleanLines(blocks[j])
          == front + [Kua.Mandag] + mon + ["Tirsdag"] + tue + ["Onsdag"] + wed + ["Torsdag"] + thu + ["Fredag"] + fri
    requires Kua.Mandag !in front
    requires Kua.NoWeekday(mon) && Kua.NoWeekday(tue) && Kua.NoWeekday(wed) && Kua.NoWeekday(thu) && Kua.NoWeekday(fri)
    ensures MenuMessage(ocr, blocks, 4).Failure?
  {
    MenuMessageSucceeds(ocr, blocks, 4);
    if Kua.KuaMenus(blocks).Success? {
      Kua.FullWeekBlock(front, mon, tue, wed, thu, fri);
      var parses := Kua.Parses(blocks);
      assert parses[j] == Kua.ParseContent(Kua.CleanLines(blocks[j]));
      Kua.GatherCollect(parses);
      Kua.CollectContains(parses, j);
      var menus := Kua.KuaMenus(blocks).value;
      var k :| 0 <= k < |menus| && menus[k] == parses[j].menu;
      assert |menus[k].days| == 4;
    }
  }
}

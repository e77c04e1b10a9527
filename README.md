# The canteen menu bot, modelled in Dafny

`kantine.py` is a chat bot that answers a `menu` command with today's dishes
from two canteens. The ITU menu comes from a billboard image. The bot crops
ten fixed rectangles out of it, reads each one with OCR and cleans the text.
The KU menu comes from an HTML page. Each content block's text is split into
lines, and the lines after `Mandag` are cut into one entry per weekday. The
command joins both lists, ITU first, and sends each source's entry for today
in one message.

This project models the text and geometry between the network and the OCR
calls:

- `text.dfy`, module `Text`: the Python `str` operations the code uses
  (`isspace`, `strip`, `lower`, `startswith`, `endswith`, `in`, `split`,
  `join`, `replace`), over `seq<char>`.
- `kua.dfy`, module `Kua`: `get_kua_dishes`. This covers line cleaning, the
  short-block skip, the title rules and the `Mandag` lookup. The day-splitting
  `while` loop is the method `WalkDays`. It is proved equal to the function
  `SplitDays`, which is built from `DayGroups` (which lines go into which day's
  buffer) and `Flush` (join with spaces, then strip). The loop over blocks is
  `GetKuaDishes`, proved equal to `KuaMenus`.
- `itu.dfy`, module `Itu`: the crop rectangles of `get_itu_dishes` and the
  cleaning of each OCR result. OCR is a parameter `ocr: Region -> string`.
- `bot.dfy`, module `Bot`: the message assembly of the `menu` handler.
  Today's weekday is a parameter. `MenuMessage` is the whole command's result
  as a function.
- `wrappers.dfy`: `Option` and `Result`.
- `canteen.dfy`, module `Canteen`: the `Menu` record, a `(title, menu)` tuple
  of the source.

Behaviour of the code worth knowing, which the model keeps as written:

- There is no flush after the day-splitting loop. The dishes after the last
  weekday name are dropped, so a `Mandag`..`Fredag` block yields four entries.
  `FullWeekBlock` proves this, and `FridayFailsOnFullWeek` proves that the
  Friday message then fails.
- Weekday names match exactly and case-sensitively. Only the five Danish
  names count.
- No block-level recovery exists. A long block without a `Mandag` line makes
  `content.index` raise, and the whole KU result is lost (`KuaRaised`).
- Nothing filters out sources. `menu[day]` raises when a source has no entry
  for today, so every Saturday and Sunday fails (`WeekendFails`).
- The ITU menus come before the KU menus.

## Model

| member | source | states |
|---|---|---|
| `Text.Strip` | kantine.py:72 | the result has no whitespace at either end, an already stripped string is unchanged, and no character is introduced |
| `Text.StripTrims` | kantine.py:72 | `strip` removes exactly the leading and trailing whitespace: the result is a slice of the input with only whitespace before and after it |
| `Text.StartsWithLowerIff` | kantine.py:76-78 | comparing the lowered characters one at a time agrees with `s.lower().startswith(p)` |
| `Text.StripBlank` | kantine.py:72 | `strip` gives the empty string exactly when every character is whitespace |
| `Text.StripKeepsLast` | kantine.py:87 | a string whose last character is not whitespace keeps that character last after `strip` |
| `Text.Split` | kantine.py:71 | `split('\n')` gives at least one piece, no piece holds the separator, and every character of a piece comes from the text |
| `Text.SplitJoin` | kantine.py:71 | joining the pieces of `split(c)` with `c` gives back the text |
| `Text.JoinEndsWithLast` | kantine.py:87 | a join of dish lines ends with its last line |
| `Text.JoinContainsParts` | kantine.py:119 | every part of a `join` occurs in the joined string |
| `Text.ReplaceChar` | kantine.py:47 | `replace('\n', ' ')` keeps the length, leaves no line feed behind, and changes exactly the replaced characters |
| `Text.Join` | kantine.py:87 | `sep.join(parts)`: the parts in order with `sep` between neighbours; `SplitJoin`, `JoinEndsWithLast` and `JoinContainsParts` are proved about it |
| `Text.Lower` | kantine.py:72 | `lower()` keeps the length and lowers each character by `LowerChar`; its gap is listed under Left out |
| `Text.LowerChar` | kantine.py:76-78 | lowers ASCII and Latin-1 capitals by 32 and keeps every other character; `StartsWithLowerIff` is proved with it; see Left out for the characters it does not lower |
| `Kua.KeepIsNonBlank` | kantine.py:72 | a line is kept exactly when it is not blank: the disclaimer clause never keeps a blank line |
| `Kua.KeepLines` | kantine.py:72 | the comprehension keeps at most as many lines as it is given, each non-empty and stripped; `KeepLinesAreNonBlank` relates it to the plain filter |
| `Kua.KeepLinesAreNonBlank` | kantine.py:72 | the comprehension equals the plain filter "stripped, non-blank lines, in order" |
| `Kua.KeepLinesAvoid` | kantine.py:71-72 | a character in none of the pieces is in none of the kept lines |
| `Kua.CleanLines` | kantine.py:71-72 | every clean line is non-empty, stripped, and holds no line feed and no no-break space |
| `Kua.Title` | kantine.py:75-79 | a title starting with "wicked" (any case) is joined with the second line, one starting with "folke" becomes `FOLKEKØKKEN`, any other stays the first line |
| `Kua.IndexOf` | kantine.py:81 | a found position holds the line, and no earlier position does |
| `Kua.IndexOfAbsent` | kantine.py:81 | `list.index` finds nothing (and raises) exactly when the line is absent |
| `Kua.IndexOfFirst` | kantine.py:81 | a `Mandag` not found in the front matter is found right after it |
| `Kua.Dotted` | kantine.py:91-92 | a line that lacks a final period gets one; `DottedEndsWithPeriod` states what it does |
| `Kua.Flush` | kantine.py:87 | one day entry is the buffer joined by spaces and stripped; `FlushEndsWithPeriod` is proved about it |
| `Kua.FlushAll` | kantine.py:84-89 | one entry per closed buffer, in order; `FlushAllAppend` shows that each close appends exactly its entry |
| `Kua.DayGroups` | kantine.py:84-94 | the buffers the `while` loop closes; `CloseStep`, `DishStep`, `DayGroupsAt`, `DayGroupsCount` and `DayGroupsDropTail` state what it holds |
| `Kua.SplitDays` | kantine.py:84-94 | the day entries of the lines after `Mandag`; `WalkDays` returns exactly it and `DayEntriesEndWithPeriod` is proved about it |
| `Kua.DottedEndsWithPeriod` | kantine.py:90-92 | every dish line ends with a period, and only a missing period is added |
| `Kua.DayGroupsCount` | kantine.py:84-89 | there is one day entry per weekday-name line walked |
| `Kua.DayGroupsAt` | kantine.py:84-94 | the entry a weekday name closes holds exactly the dotted lines since the previous weekday name; no weekday name is ever a dish |
| `Kua.DayGroupsDropTail` | kantine.py:84-96 | lines after the last weekday name produce no entry, because the loop has no final flush |
| `Kua.DayGroupsDotted` | kantine.py:90-93 | every buffered dish line ends with a period |
| `Kua.CloseStep` | kantine.py:85-89 | a weekday name closes the buffer, and the closed buffer becomes the next entry |
| `Kua.DishStep` | kantine.py:90-94 | any other line joins the buffer with a period |
| `Kua.FlushAllAppend` | kantine.py:87 | closing one more buffer appends exactly its entry |
| `Kua.FlushEndsWithPeriod` | kantine.py:87 | an entry made of period-terminated lines ends with a period |
| `Kua.FlushAllEndsWithPeriod` | kantine.py:87-93 | every entry made from period-terminated buffers is empty or ends with a period |
| `Kua.DayEntriesEndWithPeriod` | kantine.py:84-94 | every day entry is empty or ends with a period |
| `Kua.FullWeekGroups` | kantine.py:84-96 | after `Mandag`, the lines `Tirsdag`..`Fredag`, each with dishes, give four buffers, Monday to Thursday; Friday's dishes are dropped |
| `Kua.FullWeekDays` | kantine.py:84-96 | the same full week gives four entries, each its day's dishes with periods, joined and stripped |
| `Kua.AddPeriod` | kantine.py:91-92 | the line at `index` gets its period, and every other line is unchanged |
| `Kua.WalkDays` | kantine.py:82-94 | the `while` loop, with its in-place period fix, returns exactly `SplitDays` of the lines after `Mandag` |
| `Kua.MandagRequired` | kantine.py:73-81 | a long block raises exactly when it has no `Mandag` line |
| `Kua.ParsedDayCount` | kantine.py:73-97 | a long block parses, with one entry per weekday name after its first `Mandag` |
| `Kua.ParseAfterMandag` | kantine.py:75-97 | a long block is titled by its first lines and split from the line after its first `Mandag` |
| `Kua.FullWeekBlock` | kantine.py:73-97 | a block listing `Mandag`..`Fredag` with dishes parses to exactly four entries, Monday to Thursday |
| `Kua.ParseContent` | kantine.py:73-97 | a block with fewer than five clean lines is skipped, one without `Mandag` raises, any other is titled and split after its first `Mandag`; `ParseLines` returns exactly it, and `MandagRequired`, `ParsedDayCount` and `ParseAfterMandag` are proved about it |
| `Kua.ParseBlockSpec` | kantine.py:71-97 | one block's text is cleaned and then parsed; `ParseBlock` returns exactly it |
| `Kua.ParseLines` | kantine.py:73-97 | a block's clean lines are skipped when fewer than five, raise without `Mandag`, and otherwise give the title and day entries |
| `Kua.ParseBlock` | kantine.py:71-97 | one block's text is cleaned, then parsed as above |
| `Kua.ShortIffFewLines` | kantine.py:73-74 | a block is skipped exactly when it has fewer than five clean lines |
| `Kua.Gather` | kantine.py:70-99 | the loop's result after each block outcome, stopping at the first raising block; `GatherCollect` characterises it |
| `Kua.KuaMenus` | kantine.py:66-99 | `get_kua_dishes` over the block texts; `GetKuaDishes` returns exactly it, and `CollectCount` and `CollectContains` are proved about it |
| `Kua.GetKuaDishes` | kantine.py:66-99 | the loop over blocks returns `KuaMenus`: block by block, stopping at the first block that raises |
| `Kua.GatherCollect` | kantine.py:70-99 | `get_kua_dishes` succeeds exactly when no long block lacks `Mandag`, and then returns the parsed menus in block order |
| `Kua.CollectCount` | kantine.py:70-97 | on success, every block with at least five clean lines contributes exactly one menu, and a short block contributes none |
| `Kua.CollectContains` | kantine.py:97 | the menu of every parsed block is in the result |
| `Itu.WarmCrop` | kantine.py:35-45 | the warm dish of weekday `i` is rows [662, 782) and columns [start_x[i], start_x[i] + 225) |
| `Itu.VeggieCrop` | kantine.py:35-50 | the veggie dish of weekday `i` is rows [788, 908) and the same columns |
| `Itu.ColumnsApart` | kantine.py:35-36 | each column ends before the next one starts |
| `Itu.Crop` | kantine.py:45-50 | the slice `img[y:y + height, x:x + width]` as a rectangle 120 rows high and 225 columns wide; `WarmCrop`, `VeggieCrop` and `CropsDisjoint` are proved about it |
| `Itu.CropsDisjoint` | kantine.py:35-50 | the ten crops are pairwise disjoint |
| `Itu.CleanOcr` | kantine.py:47 | a cleaned OCR text holds no line feed, has no whitespace at either end, and is as long as the stripped text |
| `Itu.CleanOcrKeepsText` | kantine.py:47 | every character other than a line feed stays in place |
| `Itu.CleanOcrIdempotent` | kantine.py:47 | cleaning a cleaned text changes nothing |
| `Itu.Row` | kantine.py:42-52 | a row has five entries, none with a line break or outer whitespace |
| `Itu.ItuMenus` | kantine.py:53 | ITU gives two menus with five entries each |
| `Itu.ItuShape` | kantine.py:42-53 | the menus are titled "ITU - Warm Dishes" and "ITU - Warm Veggie", and entry `i` is the cleaned OCR of the crop at `start_x[i]` |
| `Itu.GetItuDishes` | kantine.py:35-53 | the `for` loop over `start_x` returns exactly `ItuMenus` |
| `Bot.AssembleMessage` | kantine.py:115-119 | the message succeeds exactly when every source has an entry for the day, and is then the header and the sections joined by blank lines; otherwise it fails at the first source without one |
| `Bot.Section` | kantine.py:117 | one source's part of the message: its title in bold, a line break, then its entry for `day` |
| `Bot.MessageShowsEverySection` | kantine.py:115-119 | the message opens with the header and contains every source's section |
| `Bot.HasDayAppend` | kantine.py:112 | the ITU and KU menus together have today's entry exactly when both parts do |
| `Bot.ItuHasDay` | kantine.py:35-53 | the ITU menus have an entry for exactly the days Monday to Friday |
| `Bot.FirstWithoutDay` | kantine.py:116-117 | the source where `menu[day]` raises has no entry for the day, and every earlier one has |
| `Bot.FirstIsUnique` | kantine.py:116-117 | that first failing source is unique |
| `Bot.MenuCommand` | kantine.py:110-119 | the handler's pure part returns exactly `MenuMessage` |
| `Bot.MenuMessage` | kantine.py:110-119 | the `menu` command's message, or why it raises; `MenuCommand` returns exactly it, and `MenuMessageSucceeds`, `WeekendFails` and `FridayFailsOnFullWeek` are proved about it |
| `Bot.MenuMessageSucceeds` | kantine.py:112-119 | the command succeeds exactly when the KU page parses, the day is Monday to Friday and every KU menu has an entry for it; the message then starts with the header |
| `Bot.WeekendFails` | kantine.py:112-117 | on Saturday and Sunday `menu[day]` raises at the first ITU menu |
| `Bot.FridayFailsOnFullWeek` | kantine.py:84-117 | if one KU block lists `Mandag`..`Fredag`, the Friday command fails |

## Left out

- HTTP fetches and `raise_for_status` (kantine.py:13-16, 26-27, 57-59): network I/O.
- BeautifulSoup queries and `block.text` (kantine.py:19-25, 62-63): a library. The blocks arrive as their text.
- Image decoding, numpy buffers and the green `cv2.rectangle` frames (kantine.py:29-30, 43, 48): image-library side effects. A crop is only its rectangle. The OCR parameter stands for reading that region of the image as the code leaves it, frames included.
- numpy slicing clamps a crop to the image's bounds. The image size is unknown here, so `Region` is the requested rectangle.
- `pytesseract.image_to_string` (kantine.py:46, 51): a foreign OCR engine, modelled as the parameter `ocr`.
- The `week` crop (kantine.py:33): computed and never used.
- The Discord client, command registration, deferral, `followup.send`, `on_ready` and `client.run` (kantine.py:101-126): async bot plumbing.
- `datetime.today().weekday()` (kantine.py:114): a clock. `day` is a parameter.
- Text.LowerChar: lower-cases ASCII and Latin-1 capitals only, not the whole Unicode case mapping of Python's `lower()`. The code tests two prefixes, `wicked` and `folke` (kantine.py:76, 78), and one substring, the disclaimer (kantine.py:72). Characters outside Latin-1 that Python lowers into these letters are therefore missed. For example, U+212A KELVIN SIGN lowers to `k`, so Python reads a title spelled `WIC`, U+212A, `ED` as a "wicked" title, and the model does not. Likewise U+0130 lowers to two characters in Python, which a per-character mapping cannot express.
- Exceptions: where the code raises (`ValueError` from `list.index`, `IndexError` from `menu[day]`), the model returns a `Failure`. The chat layer's handling of the exception is not modelled.

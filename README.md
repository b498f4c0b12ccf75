# GPIO panel of bb-config, modelled in Dafny

This project models the GPIO panel of bb-config (`src/ui/panel/gpio/gpio_impl.cpp`),
a console panel for a PocketBeagle-style board. It has two parts:

- **The panel (`GPIOImpl`).** It scans the listing of `/sys/class/gpio/`.
  - It skips `gpiochip` entries and keeps the `gpio…` pin directories.
  - It reads each pin's label, falling back to the directory name.
  - It keeps the pins whose label names a P1 or P2 header pin. The test is two regular-expression searches, `P[12]\.\d+` and `\(P[12]\.\d+[^)]*\)`.
  - It creates one `Gpio` controller per kept pin and counts them in `limit`.
  - Enter switches the panel to the detail view. `Render` then shows the list, the "no pins" notice or the selected pin; it first resets an out-of-range selection to the first pin.
- **The pin controller (`Gpio`).**
  - It mirrors the pin's `label`, `edge`, `direction`, `value` and `active_low` files. Each file contributes its first line; a file that cannot be opened gives a default.
  - It holds four toggles, initialised from the mirrored texts. Enter on a toggle writes the matching sysfs word and fetches all five files again.
  - Its Back, Prev and Next buttons act on the tab, cursor and pin count it shares with the panel.

The sysfs tree is a `SysFs` object holding a map from path to file content. A file exists exactly when its path is a key. `std::getline` is `Text.FirstLine`. A write replaces an existing file's content. A write to a missing file is lost, because the kernel fixes which attribute files exist. The three `int*` back-pointers that every `Gpio` shares with its panel are modelled as one shared `NavState` object. The directory listing is the parameter `entries`, in iteration order.

The regular expressions are stated as predicates over match spans (`PinLabel.PinMatch`, `PinLabel.ParenMatch`). `IsBeagleBonePin` is proved equal to "either search succeeds". That in turn is equivalent to "some four characters read `P`, `1` or `2`, `.`, digit". A consequence is that the directory-name fallback (`gpio17`) can never pass the filter. A pin with no label file and a kernel name `gpioN` is therefore never listed.

Some facts about the code that the model keeps:

- The filter accepts only P1/P2 labels; "P9.12" is rejected.
- The fallback label is the directory name.
- The controller mirrors five files, `label` included (default "Unknown").
- Pins keep listing order, with no sorting or de-duplication.

## Model

| member | source | states |
|---|---|---|
| Text.FirstLineIsLine | src/ui/panel/gpio/gpio_impl.cpp:52-57 | what `getline` extracts is a prefix of the file, holds no newline, and stops only at the end or at a newline |
| Text.FirstLineOfSingleLine | src/ui/panel/gpio/gpio_impl.cpp:88-91 | a text without newline reads back as itself, which is why a stored word is fetched back unchanged |
| Text.ContainsMeaning | src/ui/panel/gpio/gpio_impl.cpp:264 | `find(sub) != npos` holds exactly when `sub` occurs at some index |
| Text.FileNameIsLastComponent | src/ui/panel/gpio/gpio_impl.cpp:279 | `filename()` is the suffix after the last '/', contains no '/', and is preceded by '/' unless it is the whole path |
| PinLabel.TokenFromMeaning | src/ui/panel/gpio/gpio_impl.cpp:240 | scanning the label from index i finds a pin token exactly when one starts at or after i |
| PinLabel.ParenTokenFromMeaning | src/ui/panel/gpio/gpio_impl.cpp:246 | scanning the label from index i finds a parenthesised token exactly when one starts at or after i |
| PinLabel.PinSearchIsToken | src/ui/panel/gpio/gpio_impl.cpp:239-241 | a match of `P[12]\.\d+` exists exactly when the four characters 'P', '1'/'2', '.', digit occur |
| PinLabel.ParenSearchIsToken | src/ui/panel/gpio/gpio_impl.cpp:245-247 | a match of `\(P[12]\.\d+[^)]*\)` exists exactly when '(' and a pin token are followed later by ')' |
| PinLabel.ParenSearchImpliesPinSearch | src/ui/panel/gpio/gpio_impl.cpp:244-248 | every label the parenthesised search accepts is already accepted by the plain search |
| PinLabel.IsBeagleBonePinMeaning | src/ui/panel/gpio/gpio_impl.cpp:237-251 | the filter is true exactly when one of the two regex searches succeeds, and exactly when a pin token occurs |
| PinLabel.NoUpperPNoPin | src/ui/panel/gpio/gpio_impl.cpp:237-251 | a label without 'P' is rejected |
| PinLabel.OtherHeadersRejected | src/ui/panel/gpio/gpio_impl.cpp:237-251 | "P1.36" and "GPIO3_14 (P2.10)" are accepted; "P9.12" and "P1_36" are rejected |
| Sysfs.AttrPathInjective | src/ui/panel/gpio/gpio_impl.cpp:52-80 | the five attribute paths of one pin are pairwise distinct |
| Sysfs.FetchedIsSingleLine | src/ui/panel/gpio/gpio_impl.cpp:51-86 | every fetched field, read or defaulted, holds no newline |
| Sysfs.Written | src/ui/panel/gpio/gpio_impl.cpp:89 | writing never creates or removes a file |
| Sysfs.FetchedAfterWrite | src/ui/panel/gpio/gpio_impl.cpp:88-106 | after a write and a re-fetch, only the written attribute can change: it becomes the text's first line if its file exists |
| Sysfs.FetchedAfterLineWrite | src/ui/panel/gpio/gpio_impl.cpp:88-106 | a single-line write followed by a re-fetch yields the previous state with exactly that attribute replaced, or the previous state when the file is missing |
| Sysfs.SysFs.Write | src/ui/panel/gpio/gpio_impl.cpp:89 | an existing file's content becomes the text; no other file changes and no file is created |
| Toggles.DirectionToggle | src/ui/panel/gpio/gpio_impl.cpp:161 | the direction toggle is 1 exactly for "out", else 0; encoding it back gives the text exactly for "in" and "out" |
| Toggles.LevelToggle | src/ui/panel/gpio/gpio_impl.cpp:162-163 | the value and active-low toggles are 1 exactly for "1", else 0; encoding back gives the text exactly for "0" and "1" |
| Toggles.EdgeText | src/ui/panel/gpio/gpio_impl.cpp:129-144 | indices 0..3 and only those write a word, and that word is one of rising/falling/both/none |
| Toggles.EdgeToggle | src/ui/panel/gpio/gpio_impl.cpp:165-168 | the edge toggle is in 0..3, is 3 for any unrecognised text, and encodes back to the text exactly for the four edge words |
| Toggles.ToggleRoundTrip | src/ui/panel/gpio/gpio_impl.cpp:108-168 | every toggle index the menus offer survives an encode (handle*) followed by a decode (toggle initialisation) |
| Navigation.PrevCursor | src/ui/panel/gpio/gpio_impl.cpp:194-200 | within range Prev is (i - 1 + N) mod N; at 0 it wraps to N - 1, or stays 0 when there are no pins |
| Navigation.NextCursor | src/ui/panel/gpio/gpio_impl.cpp:201-207 | within range Next is (i + 1) mod N; at N - 1 it wraps to 0, and with at most one pin it gives 0 |
| Navigation.CursorStepsStayInRange | src/ui/panel/gpio/gpio_impl.cpp:194-207 | Prev and Next keep the cursor in [0, N) (or at 0 when N = 0) and undo each other |
| GpioPin.Gpio.constructor | src/ui/panel/gpio/gpio_impl.cpp:36-42 | a new controller mirrors its pin's files and its toggles match the fetched texts |
| GpioPin.Gpio.ReadAttribute | src/ui/panel/gpio/gpio_impl.cpp:52-57 | when the attribute file exists the result is its first line; when it is missing the result is the attribute's default |
| GpioPin.Gpio.Fetch | src/ui/panel/gpio/gpio_impl.cpp:51-86 | the five fields become the first lines of their files, or "Unknown"/"none"/"in"/"0"/"0" when a file is missing; toggles are untouched |
| GpioPin.Gpio.InitToggles | src/ui/panel/gpio/gpio_impl.cpp:160-168 | the toggles become the decoding of the mirrored direction, value, active-low and edge |
| GpioPin.Gpio.Store | src/ui/panel/gpio/gpio_impl.cpp:88-106 | one attribute file is written, then the mirror equals a fresh fetch of the new files |
| GpioPin.Gpio.StoreDirection | src/ui/panel/gpio/gpio_impl.cpp:88-91 | writes `direction`, then re-fetches |
| GpioPin.Gpio.StoreEdge | src/ui/panel/gpio/gpio_impl.cpp:93-96 | writes `edge`, then re-fetches |
| GpioPin.Gpio.StoreValue | src/ui/panel/gpio/gpio_impl.cpp:98-101 | writes `value`, then re-fetches |
| GpioPin.Gpio.StoreActiveLow | src/ui/panel/gpio/gpio_impl.cpp:103-106 | writes `active_low`, then re-fetches |
| GpioPin.Gpio.HandleDirection | src/ui/panel/gpio/gpio_impl.cpp:108-113 | writes "in" for toggle 0 and "out" otherwise; the new direction decodes to the toggle; a missing file leaves "in"; the controller keeps mirroring its files |
| GpioPin.Gpio.HandleValue | src/ui/panel/gpio/gpio_impl.cpp:115-120 | writes "0" or "1"; the new value decodes to the toggle; a missing file leaves "0"; the mirror is kept |
| GpioPin.Gpio.HandleActiveLow | src/ui/panel/gpio/gpio_impl.cpp:122-127 | writes "0" or "1"; the new active-low decodes to the toggle; a missing file leaves "0"; the mirror is kept |
| GpioPin.Gpio.HandleEdge | src/ui/panel/gpio/gpio_impl.cpp:129-144 | toggles 0..3 write their edge word and the new edge decodes back to the toggle; any other index changes nothing; a missing file leaves "none"; the mirror is kept |
| GpioPin.Gpio.Back | src/ui/panel/gpio/gpio_impl.cpp:193 | returns to the list view; cursor and pin count are kept |
| GpioPin.Gpio.Prev | src/ui/panel/gpio/gpio_impl.cpp:194-200 | the shared cursor steps back as `PrevCursor` says; tab and count are kept |
| GpioPin.Gpio.Next | src/ui/panel/gpio/gpio_impl.cpp:201-207 | the shared cursor steps forward as `NextCursor` says; tab and count are kept |
| GpioPanel.AdmitEntry | src/ui/panel/gpio/gpio_impl.cpp:263-283 | one listing entry gets a controller exactly when it passes the gpiochip, prefix and label tests |
| GpioPanel.AdmittedPathsStep | src/ui/panel/gpio/gpio_impl.cpp:260-290 | one more loop iteration appends the entry's path exactly when the entry is admitted |
| GpioPanel.AdmittedPathsMembers | src/ui/panel/gpio/gpio_impl.cpp:260-290 | a path gets a controller exactly when it is listed and passes all three tests |
| GpioPanel.AdmittedPathsAppend | src/ui/panel/gpio/gpio_impl.cpp:260-290 | the scan keeps the listing's order |
| GpioPanel.UnlabelledNumberedPinRejected | src/ui/panel/gpio/gpio_impl.cpp:275-283 | a pin directory with no label file and no 'P' in its name is never admitted |
| GpioPanel.GpioImpl.constructor | src/ui/panel/gpio/gpio_impl.cpp:232 | a new panel starts on the list with cursor 0, and has one fresh controller per admitted path, in order, all sharing its navigation state |
| GpioPanel.GpioImpl.BuildUI | src/ui/panel/gpio/gpio_impl.cpp:259-290 | after the scan `limit` equals the number of controllers, and controller i is the one created for the i-th admitted path |
| GpioPanel.GpioImpl.AddPin | src/ui/panel/gpio/gpio_impl.cpp:284-287 | a fresh controller for the path, sharing the panel's navigation state and mirroring its files, is appended, and `limit` grows by one |
| GpioPanel.GpioImpl.Enter | src/ui/panel/gpio/gpio_impl.cpp:255 | Enter on the pin list switches to the detail tab |
| GpioPanel.GpioImpl.Render | src/ui/panel/gpio/gpio_impl.cpp:300-325 | the menu entries are the controllers' labels in order. Outside the detail tab it shows the list; with no pins, the empty notice; otherwise a pin in range, which is the selected pin when in range and else pin 0, with the selection reset |

## Left out

- FTXUI: components, layout, `Renderer`, `Container` and the drawn elements are left out. `Render`'s result is the `Screen` value saying which view is drawn.
- Keyboard input: the `Menu` and `Toggle` widgets that move `selected` and the toggle indices are left out. The model's callers may set those fields directly.
- Real I/O: the filesystem is a map, and the directory listing is a parameter.
  - A read that fails midway is not modelled.
  - The driver rejecting a written value (for instance EINVAL) is not modelled: a write to an existing file always takes effect.
- The `std::regex` engine is not modelled. The two patterns are stated directly as match-span predicates.
- `shared_ptr` ownership, `gpio_individual->Add` and the raw back-pointers are left out. Aliasing is modelled by one shared `NavState` object.
- `Title()`, the `panel::GPIO()` factory and the read-only getters `label()` and so on are left out, because the model's fields are readable directly.
- Chip/line descriptor parsing, chip bases, sorting, de-duplication and export requests do not occur in `gpio_impl.cpp`.
- Navigation.NextCursor: the model uses unbounded integers, so `int` overflow of `(*next_)++` is not modelled. The cursor wraps at `limit` long before overflow could occur.
- GpioPanel.GpioImpl.BuildUI: it requires an empty panel. The source calls it only from the constructor, where that holds.
- GpioPanel.GpioImpl.BuildUI: when `/sys/class/gpio/` is missing or unreadable, `directory_iterator` throws `filesystem_error` out of the constructor and no panel is built. The model takes the listing as given, so that error path is not modelled.
- Sysfs.Written: the kernel's side effects of a write on *other* attribute files are not modelled. For example, writing `active_low` inverts what `value` reads, and writing "out" to `direction` drives `value` low. So the "other files unchanged" clauses hold only in the model.
- Sysfs.FetchedAfterLineWrite: for the same reason, "the other four fields are as before" holds only in the model. The same applies to the corresponding clauses of `GpioPin.Gpio.HandleDirection`, `HandleValue`, `HandleActiveLow` and `HandleEdge`. On hardware, the unconditional re-fetch in `Store*` is what picks up such changes.

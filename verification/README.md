# Terminal UI of the batch downloader, modelled in Dafny

This project models the logic underneath the curses user interface in
`src/tui.c`. The drawing is left aside; keystrokes are an input sequence and
quitting is an outcome value. Three pieces are modelled.

- **The batch URL-list editor** of `tui_get_info` (module `UrlEditor`, file
  `url_editor.dfy`). It is a key-driven loop over a list of at most ten URLs:
  - `a` reads a line and appends it when there is room and the line is non-empty;
  - `d` drops the last URL;
  - `s` starts the batch when the list is non-empty, handing it over as a `TuiResult`;
  - `q` quits.
- **The single-transfer progress state** (module `Progress`, file
  `progress.dfy`). This covers:
  - the file-level statics `prog_win`, `prog_total`, `prog_current`,
    `prog_start_time` and `prog_paused`;
  - `tui_progress_create`;
  - `tui_progress_update`, with its pause/resume loop driven by `p`, where `q` quits;
  - sequences of create/update calls that share one key stream.
- **The integer arithmetic of `tui_progress_draw`** (module `Render`, file
  `render.dfy`):
  - the 74-cell bar and its filled-cell count;
  - when the ETA is shown;
  - the split of the ETA into hours, minutes and seconds with C's truncating
    `/` and `%`.

The key codes and the non-blocking key read are in module `Keys`
(`keys.dfy`).

## Model

| member | source | states |
|---|---|---|
| UrlEditor.Prompted | src/tui.c:57-60 | The line prompt stores a prefix of the typed bytes, of length `min(len, 1023)`, so the whole line when it fits. |
| UrlEditor.Step | src/tui.c:51-77 | `q` quits, and nothing else quits. `s` leaves the loop exactly when the list is non-empty and hands over that list and its count. `a` appends exactly the typed line when there is room and it is non-empty, keeping every earlier entry, and otherwise changes nothing. `d` drops exactly the last entry and is a no-op on an empty list. Every other key, and `s` on an empty list, leaves the list unchanged. A well-formed list (at most 10 entries, each non-empty) stays well-formed. |
| UrlEditor.Run | src/tui.c:30-78 | Over any key sequence from a well-formed list: the list stays well-formed, so it never holds more than 10 URLs. A finished batch is non-empty with `count` equal to its length. Quitting or finishing requires a `q` or `s` key somewhere in the input. |
| UrlEditor.GetInfo | src/tui.c:25-85 | Starting from an empty list, a returned `TuiResult` has `1 <= count <= 10`, `count` equals the number of URLs, and every URL is non-empty and at most 1023 bytes long. |
| UrlEditor.RunConcat | src/tui.c:30-78 | Keys are consumed one after another. Running over `a + b` equals running over `a` and then over `b` from the resulting list. Once the loop has finished or quit, every later key is ignored. |
| UrlEditor.StartHandsOverCurrentList | src/tui.c:75-85 | Pressing `s` with a non-empty list ends the session with exactly the list built so far as `urls` and its length as `count`, whatever keys follow. |
| UrlEditor.AddThenDeleteRestores | src/tui.c:64-74 | A successful `a` followed by `d` is undone: the session continues as if neither key had been pressed. |
| Progress.Create | src/tui.c:100-128 | Create keeps an existing window, and otherwise has one exactly when the terminal granted the one it requested. It sets total, current and start time to its arguments and leaves the pause flag as it was. |
| Progress.FirstControl | src/tui.c:206-220 | Returns the position of the first `p` or `q` in a key stream: no earlier key is `p` or `q`, and the key at that position is one of them unless the stream has none. |
| Progress.PauseLoop | src/tui.c:206-220 | The pause loop resumes only on a `p` and hands back exactly the keys after it. It quits only if a `q` arrived. It stays paused exactly when neither `p` nor `q` ever arrives. |
| Progress.PauseLoopStopsAtFirstControl | src/tui.c:206-220 | The pause loop ends at the first `p` or `q` and nowhere else. It resumes after that key if it is `p` and quits if it is `q`. Every other key is ignored. |
| Progress.Update | src/tui.c:196-221 | `current` rises by exactly `howmuch`. Total, start time and window are untouched. An update entered unpaused returns unpaused. `q` first quits, and any key other than `p`/`q` (or none) is ignored. A `p` pauses; the update then returns exactly when a later `p` comes before any `q`, having consumed keys through that `p`, and quits exactly when a `q` comes first. |
| Progress.WhilePaused | src/tui.c:204-221 | Once `p` has set the pause flag, the update returns exactly when the first `p`/`q` that follows is `p`, with the flag cleared and nothing else changed. It quits exactly when that key is `q`, and it stays paused, with the state unchanged, while neither arrives. |
| Progress.RunCalls | src/tui.c:196-221 | Over any sequence of create/update calls and any keys, the byte counters equal the key-independent reference `Expected`: a create resets them and an update adds to `current`. Between calls, the view is never paused. |
| Progress.UpdatesAccumulate | src/tui.c:197 | A run of updates adds exactly the sum of their byte counts to `current` and keeps `total`. |
| Progress.CreateThenUpdates | src/tui.c:126-127 | After a create and updates that all return, the total is the created total and `current` is the initial count plus the sum of the updates. The view is not paused. |
| Progress.ThreeUpdatesReachTotal | src/tui.c:126-197 | A 1000-byte transfer fed 300, 300 and 400 bytes stands at 1000 of 1000 and unpaused, whatever keys were pressed, unless the user quit or left it paused. |
| Render.CellsCount | src/tui.c:156-159 | A row of `n` cells filled below position `filled` has exactly `filled` clamped into `[0, n]` filled cells. |
| Render.Bar | src/tui.c:153-159 | The bar always writes exactly 74 cells. The number filled is `min(max(filled, 0), 74)`, and the filled cells come first with no gap. |
| Render.SplitEta | src/tui.c:174-176 | The split satisfies `h*3600 + m*60 + s == eta` with `m` and `s` below 60 in magnitude. A non-negative ETA gives non-negative parts, and a non-positive one gives non-positive parts. |
| Render.SplitEtaUnique | src/tui.c:174-176 | For a non-negative ETA, the split is the only `(h, m, s)` with `h*3600 + m*60 + s == eta` and `m`, `s` in `[0, 60)`. |
| Keys.Poll | src/tui.c:199-200 | The non-blocking read returns the first pending key and leaves exactly the rest pending; with nothing pending it returns ERR. |
| Keys.Consume | src/tui.c:212 | Each read in the pause loop consumes exactly one pending key, the first, and leaves the later keys in order. |
| Render.ShowsEta | src/tui.c:163-172 | The ETA is shown exactly when the speed `current / elapsed` (0 when no time has elapsed) is positive and the total is positive. With whole-second clock readings, that is exactly when time has passed since the start and some bytes have arrived. |
| Render.Draw | src/tui.c:139-178 | Nothing is drawn without a window. The bar has 74 cells. A total of 0 or less is 0% and fills no cell; otherwise the truncated ratio, clamped, is filled, and the filled cells come first. The ETA is shown exactly when `ShowsEta` holds, and what is shown is the hours/minutes/seconds split `SplitEta` of the truncated ETA. |

## Left out

- Curses drawing is not modelled: window creation and centering, colours, boxes, the title and legend text, the URL list display, `wrefresh` and `curs_set`. For the progress window, whether it exists is kept as `windowOpen`.
- `exit(0)` on `q` is the outcome values `Quit`, `UpdateQuit` and `Quitted`.
- `time()` is the clock parameter `now`, in whole seconds.
- `usleep` and the 1.5-second pause after completion are left out, because they are only timing.
- The `time_taken` argument of `tui_progress_update` is unused by the code and is left out.
- Render.Draw: the floating-point percentage, speed and ETA are not computed. The draw takes `ratioCells`, which is `(int)(pct * 74)`, and the ETA in whole seconds as inputs. Only the parts that do not depend on rounding are derived from the state: a non-positive total gives 0%, and whether the speed is positive. The `%.1f` percentage and `%.2f` speed texts are not modelled.
- Render.SplitEta: the conversion `(int)eta` of the floating-point ETA to a 32-bit `int` is left out (it is undefined for out-of-range values). So is the `%02d` formatting.
- Progress.Update: `prog_current` is an unbounded integer. The 64-bit `wgint` overflow of the C counter is undefined behaviour and is not modelled.
- UrlEditor.Prompted: curses line editing (backspace and the like) is not modelled. Neither is a typed NUL character, where `strlen` would cut the line short.
- `realloc`, `strdup` and `free` are not modelled, because they only manage memory. This includes the unchecked `realloc` failure.
- The unused `selected` variable of `tui_get_info` is left out.
- UrlEditor.TuiResult carries only `urls` and `count`. `tui_get_info` never assigns `checksum_type` or `expected_checksums`: it allocates the result with `malloc`, so those fields are indeterminate.
- The stubs `tui_get_url` and `tui_progress_set_params` are left out. They do nothing.
- `tui_progress_finish` is left out. It only draws a message and tears down the window; it does not change the byte counters.
- The checksum, file-path, activity, cleanup, wait and active-count functions declared in `src/tui.h` have no bodies in `src/tui.c`. They are not part of this model.
- UrlEditor.Prompted: `line` stands for the sequence of bytes the curses key read delivers, one `char` per byte. A multi-byte character therefore counts as several, and the 1023 limit is a limit in bytes, as in the C buffer.
- Progress.Update: every update that returns ends by redrawing with `tui_progress_draw`. The model does not return that frame: the redraw changes no state, and `Render.Draw` of the returned state gives it.
- Render.ShowsEta: the speed is modelled as an exact real quotient. The C code divides in double precision, which rounds the value but keeps its sign, and the sign is all the condition uses.
- Progress.Create: whether curses grants the requested 14-by-80 window is the input `granted`, not computed from the terminal size. `newwin` refuses a window whose centred origin is negative, which for this window means fewer than 79 columns or fewer than 13 rows; the draw then shows nothing.
- UrlEditor.GetInfo: the editor's own 20-by-80 window is assumed to exist. `newwin` refuses it when its centred origin is negative, which means fewer than 19 rows or fewer than 79 columns. Every key read then returns ERR, and the loop spins without reading a key and never returns.

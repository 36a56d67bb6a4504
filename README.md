# Android device operator tools — a Dafny model

This project models the logic of the Android automation server
(mcp-android-server-python). The server wraps an automation library and the `adb`
bridge. Each tool connects to a device, makes library calls, and turns the outcome
into a bool, a string or a reply dictionary. The model covers the logic these tools
add on their own:

- the parser for the text `adb devices` prints (`AdbDevices`);
- the decisions and reply shapes of `get_device_status`, `connect_device`,
  `get_device_info` and `check_adb_and_list_devices`, including the normalisation of
  the device's info dictionary with its defaults (`DeviceTools`);
- the closed set of selector kinds and its dispatch (`Selectors`), which every element
  tool shares through one lookup (`Automation.Locate`);
- the exists → gesture → bool rule of `click`, `long_click` and `drag`, and the
  raise → False rule of `press_key`, `swipe` and `send_text` (`InputTools`);
- the nine-field element descriptor, `wait_for_element`, `scroll_to`, `screenshot`
  and `dump_hierarchy` (`InspectionTools`).

The bridge and the library are oracles:
- `adbFound` is the outcome of `shutil.which("adb")`: it returns true when a path is
  found, or it raises.
- `listing` is the outcome of `subprocess.run([adb, "devices"], check=True)`: the
  captured standard output, or a raise.
- `session: Call<Device>` is the outcome of `u2.connect(...)`. Each field of `Device`
  is the outcome of one call a tool makes on the device (`Automation.Device`).
- An element lookup returns a `Found`: Python `None`, a plain bool, or an element
  object whose `bool(el)`, `el.exists`, `el.info` and gestures are again outcomes.

`Outcomes.Call` (`Returned(value)` or `Raised(message)`) stands for any Python call.
Its `:-` operator propagates a raise, as Python does when no handler is in between.
Every `try`/`except` of the source is a match on such an outcome.

The parser follows CPython's string methods exactly (`PyText`):
- `strip()` and `split()` use the 29 code points for which `str.isspace()` holds;
- `splitlines()` breaks at `\n`, `\r`, `\r\n` (one boundary), `\v`, `\f`,
  U+001C..U+001E, U+0085, U+2028 and U+2029;
- a final boundary does not start an empty line.

`ListDevices` is the loop the tools run, including its `line.strip()` test. It is
proved equal to the reference definition `ParsedDevices`:
`ReadySerials(Body(SplitLines(Strip(stdout))))`. The reference is a filter-map over
the lines after the header.

`get_device_status` fills its `status` record field by field, so `GetDeviceStatus` is
a method that updates a `DeviceStatus` value step by step. `connect_device`,
`get_device_status` and `check_adb_and_list_devices` each call `ListDevices`, so the
three copies of the parser are one definition. The older single-file server
`server_original_backup.py` holds the same code again. Its copies are:
- the parser at 139-146, 255-262 and 403-409;
- `get_device_status` at 101-204, `connect_device` at 211-305 and `get_device_info`
  at 310-372;
- `check_adb_and_list_devices` at 377-412;
- `press_key` at 741-771, `click` at 777-825, `long_click` at 831-872, `swipe` at
  878-917, `drag` at 923-966 and `send_text` at 973-1002;
- `get_element_info` at 1009-1067, `wait_for_element` at 1073-1115, `scroll_to` at
  1121-1160, `screenshot` at 1167-1195 and `dump_hierarchy` at 1201-1242.

They match the `tools/` files line for line, so every member below models both.

Two points where the code goes further than its own docstrings:
- `click`'s docstring (tools/input_tools.py:76-77) says it raises ValueError for an
  unknown selector_type. The code raises it inside its own `try` (tools/input_tools.py:88,
  135, 229) and returns False. Every selector tool does the same and gives False or
  `{}`, so an unknown kind never propagates.
- `long_click` and `drag` look the element up without waiting for it. Only `click`,
  `get_element_info` and `wait_for_element` use `.wait(timeout=...)`.

A lookup through `.wait(timeout=...)` may hand back a plain bool instead of an
element. A bool has no `.exists` attribute. For `True`, `el and el.exists` reads it
and raises, and the tool returns False. For `False`, it short-circuits to False
without reading `.exists`. Either way no gesture is made.
`Automation.Found` includes this case, and `Automation.FlagNeverPresent` and
`InputTools.ClickOnFlagNeverTaps` state its consequence. What the library's `wait`
actually returns is outside this model.

## Model

| member | source | states |
|---|---|---|
| `PyText.LStrip` | tools/device_tools.py:62 | `lstrip()` is the suffix left after a blank prefix, and it is empty or starts with a visible character |
| `PyText.RStrip` | tools/device_tools.py:62 | `rstrip()` is the prefix left before a blank suffix, and it is empty or ends with a visible character |
| `PyText.Strip` | tools/device_tools.py:65 | `strip()` is `rstrip()` of `lstrip()`; `StripShape` and `StripEmptyIffBlank` state what it keeps |
| `PyText.StripShape` | tools/device_tools.py:62 | `strip()` keeps exactly the characters between a blank prefix and a blank suffix, and what it keeps is empty or starts and ends with a visible character |
| `PyText.SplitLines` | tools/device_tools.py:62 | every line is free of line boundaries, there are at most as many lines as characters, and a non-empty text has at least one line; `OneLine` and `SplitAtBreak` state where it splits |
| `PyText.OneLine` | tools/device_tools.py:62 | a text without line boundaries is one line, or no line when empty |
| `PyText.SplitAtBreak` | tools/device_tools.py:62 | a line, one boundary ("\r\n", or any single one of the ten boundary characters other than a "\r" that a "\n" follows) and the rest split into that line followed by the lines of the rest; a final boundary adds no empty line |
| `PyText.SplitLinesKeepsText` | tools/device_tools.py:62 | `splitlines()` loses nothing but the boundaries: the lines laid end to end are the text with every line-boundary character removed |
| `PyText.Tokens` | tools/device_tools.py:66 | every token of `split()` is a non-empty run without whitespace |
| `PyText.WordFirst` | tools/device_tools.py:66 | a word followed by whitespace or nothing is split off as the first token, ahead of the tokens of the rest |
| `PyText.TokensSkipBlank` | tools/device_tools.py:66 | leading whitespace does not change the tokens |
| `PyText.StripEmptyIffBlank` | tools/device_tools.py:65 | `line.strip()` is empty exactly when the line is all whitespace |
| `PyText.TokensOfPair` | tools/device_tools.py:66-67 | a row "serial<blank run>state" splits into exactly the two words |
| `AdbDevices.ParsedDevices` | tools/device_tools.py:62-68 | the reference parse: the first tokens of the ready rows after the header, in order; the lemmas below state what it yields |
| `AdbDevices.ListDevices` | tools/device_tools.py:61-68 | the loop over `lines[1:]` with its `append`s yields exactly the reference parse of the output |
| `AdbDevices.BlankRowNotReady` | tools/device_tools.py:65-67 | a blank row is never a ready row, so skipping it changes nothing |
| `AdbDevices.ReadySerials` | tools/device_tools.py:64-68 | the reference filter-map over the body rows: each row contributes its first token when `IsReadyRow` holds (at least two tokens, the second "device"); every identifier is a word |
| `AdbDevices.ReadySerialsAppend` | server_original_backup.py:139-146 | the parse of two blocks of rows is the parse of the first followed by the parse of the second (row order is kept) |
| `AdbDevices.ReadySerialsMembers` | tools/device_tools.py:66-68 | an identifier is reported exactly when some row has second token "device" and that identifier as first token |
| `AdbDevices.ReadySerialsLength` | tools/device_tools.py:65-67 | at most one identifier per row, and one per row exactly when every row is ready |
| `AdbDevices.ParsedDevicesBound` | tools/device_tools.py:62-67 | every identifier is a non-empty word without whitespace, and there are no more of them than lines after the header |
| `AdbDevices.HeaderOnly` | tools/device_tools.py:62-64 | output whose stripped text is a single line (only a header) yields no devices |
| `AdbDevices.HeaderNeverCounts` | tools/device_tools.py:62-64 | whatever a first line that is not all whitespace says, the result depends only on the lines after it |
| `AdbDevices.ListingRoundTrip` | tools/device_tools.py:324-330 | rendering entries as "serial\tstate" rows under a header and parsing gives back the serials whose state is exactly "device", in order |
| `AdbExamples.UnauthorizedExcluded` | tools/device_tools.py:310-311 | "List of devices attached", "SERIAL1\tdevice", "SERIAL2\tunauthorized" parses to exactly ["SERIAL1"] |
| `PyValues.Get` | tools/device_tools.py:99 | `d.get(key, default)` is the entry when the key is present and the default otherwise |
| `PyValues.GetNested` | tools/device_tools.py:102-103 | `info.get(k, {}).get(j, d)` raises AttributeError exactly when `info[k]` is present and not a dict; otherwise the entry or the default |
| `PyValues.Decimal` | tools/device_tools.py:269 | `str(n)` is non-empty, contains no "x", and is the digits of `n` with a sign when negative |
| `PyValues.DigitsRoundTrip` | tools/device_tools.py:269 | reading the decimal digits of `n` back gives `n` |
| `Selectors.ParseKind` | tools/input_tools.py:81-88 | exactly "text", "resourceId" and "description" name a kind, and the kind found is the one the tag names |
| `Selectors.ParseKindName` | tools/inspection_tools.py:58-65 | parsing a kind's name gives the kind back |
| `Selectors.ParseKindInjective` | server_original_backup.py:810-817 | two tags that name the same kind are the same tag |
| `Selectors.ResolveKind` | tools/input_tools.py:87-88 | an unknown tag raises ValueError "Invalid selector_type: <tag>"; a known one gives its kind |
| `Automation.Truth` | tools/input_tools.py:90 | `bool(el)`: None is falsy, a bool is itself, an element object answers with its own truth value (which may raise) |
| `Automation.ExistsAttr` | tools/input_tools.py:90 | only an element object has `.exists`; on None or a bool the read raises |
| `Automation.PresentAndExists` | tools/input_tools.py:90 | `el and el.exists` holds exactly for an element object that is truthy and exists; a falsy `el` short-circuits to False |
| `Automation.NotNoneAndExists` | tools/inspection_tools.py:126 | `el is not None and el.exists` is False for None, holds exactly for an existing element, and raises for a bool |
| `Automation.FlagNeverPresent` | tools/input_tools.py:82-93 | a plain bool never passes `el and el.exists`: True raises on `.exists`, False fails the test |
| `Automation.Locate` | tools/input_tools.py:80-88 | a failed connection or an unknown tag raises before any lookup; otherwise the lookup of the parsed kind is made |
| `Automation.PresentIsElement` | tools/input_tools.py:90-91 | whatever passes the existence test is an element object, so the gesture is made on an element |
| `DeviceTools.BasicEntries` | tools/device_tools.py:98-104 | five keys; manufacturer, model and serial default to "", version and sdk come from `version.release`/`version.sdk` with defaults "" and 0 |
| `DeviceTools.BasicInfo` | tools/device_tools.py:97-104 | the normalisation raises AttributeError exactly when `version` is present and not a dict, and otherwise gives the five entries |
| `DeviceTools.ConnectEntries` | tools/device_tools.py:203-211 | seven keys with the same defaults plus `display.density` (default "") and `productName` (default "") |
| `DeviceTools.ConnectInfo` | tools/device_tools.py:202-211 | raises exactly when `version` or `display` is present and not a dict, reporting `version` first, and otherwise gives the seven entries |
| `DeviceTools.BasicInfoOfEmpty` | server_original_backup.py:176-182 | an empty info dict gives "" for every string and 0 for sdk |
| `DeviceTools.ConnectInfoExtendsBasic` | tools/device_tools.py:203-211 | `connect_device` reports the same five values as `get_device_status`, and fails with the same message when that one fails |
| `DeviceTools.Unavailable` | tools/device_tools.py:49-57 | every early reply has no devices, no info, all flags false and the given error |
| `DeviceTools.ReadBasicInfo` | tools/device_tools.py:96-104 | the info read succeeds exactly when connecting, `d.info` and the normalisation all complete, and then yields the normalised info |
| `DeviceTools.GetDeviceStatus` | tools/device_tools.py:45-126 | no adb: all flags false, empty list and info, the adb error; listing raised: its error; devices are the parse; no devices: the "No devices connected" error and not connected; connected exactly after a successful info read; ready implies connected; ready exactly when the error is None; a failed screen read keeps the info but is not ready |
| `DeviceTools.Failure` | tools/device_tools.py:219-225 | a failure reply echoes the caller's device id with empty info and the error |
| `DeviceTools.SerialOr` | tools/device_tools.py:217 | `d.serial or device_id` is the serial when it is non-empty, else the caller's id |
| `DeviceTools.ConnectSession` | tools/device_tools.py:200-218 | connecting with `device_id` succeeds exactly when connect, `d.info`, the normalisation and `d.serial` all complete, and then reports the normalised info and `SerialOr` |
| `DeviceTools.ConnectDevice` | tools/device_tools.py:163-225 | success exactly when the error is None; every failure echoes `device_id` with empty info; each failure has its own message; success exactly when adb is found, the parse is non-empty and the session completes |
| `DeviceTools.Resolution` | tools/device_tools.py:269 | `f"{w}x{h}"` is the width's decimal digits, an "x", then the height's digits; by `Decimal` neither part contains an "x" |
| `DeviceTools.ResolutionRoundTrip` | tools/device_tools.py:269 | for non-negative sizes, the "WxH" text splits at its only "x" back into the width and height |
| `DeviceTools.DeviceInfoSession` | tools/device_tools.py:263-285 | the reads happen in source order (connect, `d.info`, `d.window_size()`, `d.serial`, `version`, battery, Wi-Fi, screen) and the first one that raises gives the message; when none raises, the success reply with the ten entries and `d.serial or device_id` |
| `DeviceTools.DeviceEntries` | tools/device_tools.py:267-278 | ten keys: the serial, the resolution text, battery, Wi-Fi address and screen state as read, and version, sdk, manufacturer, model and product with the same defaults as `connect_device` |
| `DeviceTools.GetDeviceInfo` | tools/device_tools.py:262-292 | success exactly when the error is None, and exactly when every read completes and `version` is a dict; then the ten entries and `d.serial or device_id`; a failure echoes `device_id` with empty info and "Failed to get device info: " plus the message |
| `DeviceTools.DeviceInfoAgreesWithConnect` | tools/device_tools.py:267-278 | `get_device_info` and `connect_device` report the same version, sdk, manufacturer, model, product and device id |
| `DeviceTools.CheckAdbAndListDevices` | tools/device_tools.py:313-333 | a raise in the adb lookup propagates; no adb: `adb_exists` False with no devices; listing raised: `adb_exists` True, no devices, the exception text; otherwise the parse and no error |
| `InputTools.PressKey` | tools/input_tools.py:36-42 | True exactly when connecting and `d.press(key)` complete |
| `InputTools.Swipe` | tools/input_tools.py:182-188 | True exactly when connecting and `d.swipe(...)` complete |
| `InputTools.SendText` | tools/input_tools.py:266-272 | True exactly when connecting and `d.send_keys(text, clear=clear)` complete |
| `InputTools.ActOn` | tools/input_tools.py:90-96 | the gesture is made exactly when the element passes `el and el.exists`; True exactly when it was made and completed |
| `InputTools.Click` | tools/input_tools.py:79-96 | an unknown kind or a failed connection gives False with no tap; taps exactly when the awaited element exists; True exactly when the tap completed |
| `InputTools.LongClick` | tools/input_tools.py:126-143 | the same rule for the selected element and its long click |
| `InputTools.Drag` | tools/input_tools.py:220-237 | the same rule for the selected element and its drag |
| `InputTools.LongClickAndDragAgree` | tools/input_tools.py:128-140 | `long_click` and `drag` act on exactly the same lookups |
| `InputTools.ClickOnFlagNeverTaps` | tools/input_tools.py:82-93 | a lookup that hands back a bool never leads `click` to tap |
| `InspectionTools.Describe` | tools/inspection_tools.py:70-78 | each of the nine fields is the value under its source key when present and its default otherwise: "" for text, resourceId, description (from `contentDescription`) and className, False for enabled, clickable, selected and focused, {} for bounds |
| `InspectionTools.ToDict` | tools/inspection_tools.py:69-79 | the reply has exactly the nine ElementInfo keys, each holding its field |
| `InspectionTools.SourceInfo` | tools/inspection_tools.py:70-78 | the library info that carries a descriptor's values has exactly the nine source keys |
| `InspectionTools.DescribeDefaults` | tools/inspection_tools.py:68-79 | nothing known gives "" for the strings, False for the flags and {} for bounds |
| `InspectionTools.DescribeRoundTrip` | tools/inspection_tools.py:68-79 | the normalisation gives back every descriptor from the library info that carries it |
| `InspectionTools.DescribeReadsSourceKeysOnly` | tools/inspection_tools.py:72 | keys outside the nine source keys, `description` included, do not affect the descriptor |
| `InspectionTools.DescriptionIgnoresDescriptionKey` | server_original_backup.py:1056 | `description` is read from `contentDescription`, never from `description` |
| `InspectionTools.GetElementInfo` | tools/inspection_tools.py:56-83 | an unknown kind, a failed connection or any raise gives the empty reply; a descriptor exactly when the element exists and its info is read, and then the normalised info |
| `InspectionTools.ElementInfoReply` | tools/inspection_tools.py:67-80 | the reply is {} exactly when there is no descriptor, and otherwise has all nine keys |
| `InspectionTools.Answer` | tools/inspection_tools.py:120-128 | a raise gives False; the description branch answers True exactly when the element is an existing element object; the other branches return what the lookup returned |
| `InspectionTools.WaitForElement` | tools/inspection_tools.py:118-131 | an unknown kind or a failed connection gives False; the description branch answers True exactly when the element is an existing element object; the other branches return what the wait returned |
| `InspectionTools.ScrollTo` | tools/inspection_tools.py:163-176 | the same rule for the scroll lookup |
| `InspectionTools.Screenshot` | tools/inspection_tools.py:204-210 | True exactly when connecting and `d.screenshot(filename)` complete |
| `InspectionTools.DumpHierarchy` | tools/inspection_tools.py:249-257 | the XML text when connecting and the dump complete, "" otherwise |

## Left out

- `shutil.which`, `subprocess.run`, `u2.connect` and every call on the device or an element are I/O over a library this model does not contain. They are oracle inputs, and a repeated read (`d.serial` in `get_device_info`) gives the same outcome each time.
- Timeouts and durations (`timeout`, `duration`), swipe coordinates, and the drag target are passed to the library and shape only its timing and effect. Their outcome is an oracle. The drag target is kept as a parameter of `InputTools.Drag` but does not select anything.
- The `print` logging inside every handler writes to standard output only and is not modelled.
- `d.info` and `el.info` are modelled as dictionaries. A library that returned something else would make `.get` raise, and each handler would then give the same failure reply as when the read itself raises (for `get_device_status`, `device_connected` False with the "Device connection failed: " error).
- The default `selector_type="text"` of `click`, `long_click`, `get_element_info`, `wait_for_element` and `scroll_to` is not modelled: every element tool takes the tag as an explicit argument (`drag` has no default in the source either).
- `mcp_health` (tools/device_tools.py:10-17) returns a fixed greeting and has no logic.
- `wait_for_screen_on` (tools/screen_tools.py:90-110) is an asynchronous poll whose point is waiting. tools/app_tools.py, tools/screen_tools.py and tools/advanced_tools.py are single-call delegations. server.py and tools/__init__.py build the server and register tools. None of these is part of this model.
- `Automation.Found.existsAttr` treats an element's `.exists` as a bool. `wait_for_element` and `scroll_to` return `el is not None and el.exists` (tools/inspection_tools.py:126, 171), which is the attribute itself. A non-bool attribute, and any truth test of it after the handler returns, is not modelled.
- `Value.Float` stands for a Python float as a real number; NaN and infinities are not modelled.
- `InspectionTools.WaitForElement`: the text and resourceId branches return the library's value as it came, modelled as a `Found`. The declared `bool` result type is not enforced in Python, and the model does not enforce it either.

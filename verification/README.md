# CppWriteups core in Dafny

A model of the three pieces of sequential logic in the C++ teaching snippets:

- **`Server`** (Classes/main.cpp): an object with an address, a port and a
  running flag; `init` configures it, `start` switches it on once and writes
  `[LOG] Server started at <ip>:<port>`, `getStatus` reads the flag. Module
  `Classes` models it as a pure state machine over a `World` (the three fields
  plus the lines written so far) with `Run` replaying a call sequence; module
  `ServerObject` gives the same members on a mutable class with a ghost log,
  with `init`, `start` and `getStatus` specified by the pure machine and the constructor configuring the object as `init` would. Module `Decimal` renders the port the
  way `std::ostream << int` does and reads it back.
- **`ElectricalVehicle` / `Tesla`** (Encapsulation/tempCodeRunnerFile.cpp):
  vehicle values with setters, getters, the constructors, and `charge`, which
  saturates at 100 from above and has no lower clamp.
- **References** (References/main.cpp): memory as a sequence of cells, a
  reference as the index of its cell, assignment through a reference and
  `swap`, including the case where both references name the same cell.

C++ `int` is the newtype `Int32.int32`. `batteryPercentage + val` must fit in
it because signed overflow is undefined behaviour in C++.

## Model

| member | source | states |
|---|---|---|
| Classes.Init | Classes/main.cpp:13-18 | after `init(ip, p)` the address is `ip`, the port is `p` and the server is stopped, whatever the prior state; the output is untouched |
| Classes.Start | Classes/main.cpp:21-26 | `start` always leaves the server running and never changes address or port; from stopped it appends exactly the one line naming address and port; when already running it changes nothing |
| Classes.LogLine | Classes/main.cpp:24 | the line starts with the fixed tag, then the address, then ':' |
| Classes.LogLineRoundTrip | Classes/main.cpp:24 | address and port can be read back from the line (split at its last ':'), even when the address contains ':' |
| Classes.LogLineInjective | Classes/main.cpp:24 | two servers write the same line only when they have the same address and port |
| Classes.Run | Classes/main.cpp:13-31 | replaying calls only appends to the output, and `getStatus` answers once per status call |
| Classes.InitOverwrites | Classes/main.cpp:13-18 | the state after `init` does not depend on the previous configuration or flag, and the status is then false |
| Classes.StartIdempotent | Classes/main.cpp:21-26 | calling `start` twice is the same as calling it once |
| Classes.InitThenStartRuns | Classes/main.cpp:13-26 | after `init` then `start` the status is true and exactly the line for `ip:p` was added |
| Classes.StatusIsPure | Classes/main.cpp:29-31 | `getStatus` changes nothing; two calls in a row answer the same |
| Classes.RunningIsStable | Classes/main.cpp:13-31 | without `init`, a running server never goes back to stopped and writes nothing more, whatever calls follow |
| Classes.StartLogsOnce | Classes/main.cpp:21-26 | between two `init`s a stopped server writes its line exactly once if `start` is called at least once, and nothing otherwise |
| Classes.WebServerLogLine | Classes/main.cpp:24 | for `111.1.11.12` and `8080` the line is `[LOG] Server started at 111.1.11.12:8080` |
| Classes.WebServerScenario | Classes/main.cpp:40-46 | `main`'s calls report false then true and write exactly one line |
| ServerObject.ServerInstance.Init | Classes/main.cpp:13-18 | the object's `init` takes the state `Classes.Init` computes from the state before the call |
| ServerObject.ServerInstance.Start | Classes/main.cpp:21-26 | the object's `start` keeps address and port, leaves it running, and extends the ghost log by the line only when it was stopped |
| ServerObject.ServerInstance.GetStatus | Classes/main.cpp:29-31 | the object's `getStatus` returns the running flag and, having no modifies clause, changes nothing |
| ServerObject.WebServer | Classes/main.cpp:36-46 | the same scenario on a mutable object: status false before, true after, one line written |
| Decimal.NatToDecimal | Classes/main.cpp:24 | the port's digits are non-empty, all digits, and start with '0' only for the number zero |
| Decimal.IntToDecimal | Classes/main.cpp:24 | the port's text is non-empty, starts with '-' exactly when the port is negative, and the magnitude after it is canonical: non-empty digits with no leading zero except for 0 itself |
| Decimal.IntToDecimalCanonical | Classes/main.cpp:24 | the magnitude of the port's text (after the '-' for negatives) is non-empty digits and starts with '0' only when it is "0" |
| Decimal.NatToDecimalParse | Classes/main.cpp:24 | every canonical digit string is the rendering of its value |
| Decimal.IntDecimalRoundTrip | Classes/main.cpp:24 | reading back the rendered port gives the port, negative ports included |
| Encapsulation.SetBrand | Encapsulation/tempCodeRunnerFile.cpp:38-40 | `setBrand` writes the brand and leaves the battery level alone |
| Encapsulation.SetBatteryPercentage | Encapsulation/tempCodeRunnerFile.cpp:42-44 | `setBatteryPercentage` writes the level and leaves the brand alone |
| Encapsulation.NewElectricalVehicle | Encapsulation/tempCodeRunnerFile.cpp:12-15 | the constructor leaves `getBrand()` equal to the given brand and `getBatteryPercentage()` equal to the given level |
| Encapsulation.Charge | Encapsulation/tempCodeRunnerFile.cpp:25-27 | after `charge(val)` the level is `min(old + val, 100)`, at most 100, and the brand is unchanged |
| Encapsulation.NewTesla | Encapsulation/tempCodeRunnerFile.cpp:54-57 | the `Tesla` constructor builds the same vehicle part as `ElectricalVehicle(b, bat)` and stores `autoP` |
| Encapsulation.ChargeBelowCapAdds | Encapsulation/tempCodeRunnerFile.cpp:26 | below the cap `charge` adds exactly `val`, negative values included, so there is no lower clamp |
| Encapsulation.ChargeHasNoLowerClamp | Encapsulation/tempCodeRunnerFile.cpp:26 | a level of 10 charged by -30 becomes -20 |
| Encapsulation.ChargeMonotone | Encapsulation/tempCodeRunnerFile.cpp:26 | from a level of at most 100 a non-negative charge never lowers the level |
| Encapsulation.ChargeFullIsFixedPoint | Encapsulation/tempCodeRunnerFile.cpp:26 | a level of 100 stays 100 under any non-negative charge |
| Encapsulation.ChargeSaturates | Encapsulation/tempCodeRunnerFile.cpp:26 | once a charge reaches the cap, further non-negative charges change nothing |
| Encapsulation.ChargeComposes | Encapsulation/tempCodeRunnerFile.cpp:26 | from any level, charging by any `a` then by a non-negative `b` equals charging by `a + b` |
| Encapsulation.TeslaScenario | Encapsulation/tempCodeRunnerFile.cpp:70-73 | `new Tesla("Tesla", 20, false)` reports brand "Tesla" and level 20 |
| References.Assign | References/main.cpp:15-23 | assigning through a reference writes exactly its bound cell and no other |
| References.Swap | References/main.cpp:3-7 | after `swap(a, b)` cell `a` holds the old `b`, cell `b` the old `a`, and no other cell changes |
| References.SwapCells | References/main.cpp:3-7 | the same exchange performed in place on an array |
| References.SwapInvolutive | References/main.cpp:3-7 | swapping twice restores memory |
| References.SwapSelf | References/main.cpp:3-7 | swapping a cell with itself (both references aliasing it) changes nothing |
| References.SwapSymmetric | References/main.cpp:3-7 | `swap(a, b)` and `swap(b, a)` have the same effect |
| References.SwapPermutes | References/main.cpp:3-7 | `swap` keeps the multiset of stored values |
| References.AssignCopiesValue | References/main.cpp:23 | `ref = y` copies `y` into the referenced cell and leaves `y` unchanged |
| References.MainScenario | References/main.cpp:10-29 | `ref = 50` makes `x` 50, `ref = y` makes `x` 20 with `y` still 20, and the swap keeps both 20 |

## Left out

- Pointers/tb.cpp: a single allocation, assignment, print and free with no logic of its own.
- `showCharge` and its `Tesla` override, the destructors' messages, and all console output in the `main` functions: they only print. The `Server` log line is modelled as an appended string.
- `sizeof(webServer)`: depends on the compiler's layout.
- The state of a `Server` before `init`, where `isRunning` is indeterminate: the pure model has no such state, and the class is created by a constructor that configures it like `init`.
- `GetBrand`, `GetBatteryPercentage` and `Classes.GetStatus` are plain field reads; their behaviour is stated by the lemmas and constructor contracts that use them rather than by their own contracts.
- Encapsulation.Charge: requires that `batteryPercentage + val` fits in a 32-bit `int`, because the C++ overflow is undefined behaviour; the lemmas about `charge` carry the same requirement.
- Inherited members on a `Tesla` are applied to its `base` field; virtual dispatch is not modelled because the only virtual members, `showCharge` and the destructor, do nothing but print.

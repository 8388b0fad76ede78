# Airline desk screens — a Dafny model

This project models the decision logic and the screen state of a Swing airline desk
application. Each screen becomes one Dafny module:

- **Refund** (`refund.dfy`). A fixed ticket-price table looked up by flight number. Whole
  hours to departure are computed with Java's truncating `long` division. The hours choose
  one of three tiers: full refund, refund minus a 20% fee, or refused. The screen remembers
  the refundable amount, and the confirm button pays out exactly that amount.
- **Reschedule** (`reschedule.dfy`). The booked fare, the fare of the chosen cabin, and the
  target flight's ±10% adjustment. They give the signed price difference. The screen stores
  that difference, and it decides whether a payment step comes before the change is completed.
- **Users** (`users.dfy`). The users table keyed by username, with its row operations. Also:
  - the credential check;
  - the new-account validation chain;
  - the freeze toggle;
  - the search priority (username before phone);
  - the temporary-password alphabet and generator;
  - the management screen's handlers.
- **Flights** (`flights.dfy`). The flight form's checks, in the order the handler makes them.
  The airport code and aircraft id are cut out of the combo box items. A flight is inserted
  into the flights table only when its flight number is new. Its seat count comes from the
  aircraft, or defaults to 180.
- **Seats** (`seats.dfy`). The fixed 10 × 12 cabin layout, and how each cell becomes a button.
  Buttons are registered by their text. Selection is one seat at a time, and confirm is guarded.
- **Orders** (`orders.dfy`). The order list. Each load clears it and refills it, in order, with
  the sample orders that pass the status filter.
- **Notifications** (`notifications.dfy`). Four message templates with `{...}` placeholders,
  each filled with fixed sample values by chained replace-all. The send handler guards its
  input, then appends to the result area.
- **Flight query** (`flight_query.dfy`). The date check: the regular expression
  `\d{4}-\d{2}-\d{2}`, then a strictly-future check. The query and return handlers depend on it.

Shared pieces:

- `java_text.dfy` states the `java.lang.String` operations the screens use, over `seq<char>`:
  `trim`, `indexOf`, `contains`, `startsWith`, `replace`, `split`, `String.valueOf`.
- `booked_flights.dfy` holds the three booked-flight labels that the refund and reschedule
  screens offer.

Money is exact `real`: every price is a multiple of 100, so the factors 0.8, 0.2, 1.1 and 0.9
come out exact. The following become parameters of the operations that use them:

- the clock;
- the date and number parsers, as `Option` results where `None` means the parser threw;
- `Math.random`, as a bounded draw;
- the simulated send outcomes.

Some behaviour worth knowing when reading the model:

- Reschedule: the confirm button reads "支付并改签" (pay and reschedule) for a zero difference
  too, yet only a positive difference is charged. A negative difference is never paid back.
  The confirm handler reuses the difference of the last check, even if the selections have
  changed since then.
- The reschedule screen's booked-flight list and target-flight list have no label in common.
  So the "same flight" warning cannot be reached through the combo boxes.
- Seats: the registry is a map from button text to button. A later cell with the same text
  replaces an earlier one. The 56 seat labels are all distinct, so every seat stays registered.
- The order filter's four options each match at least one sample order. So the "no matching
  orders" notice is never shown for them.

## Model

| member | source | states |
|---|---|---|
| JavaText.Trim | src/NotificationModule.java:108 | `trim` gives a result with no blank at either end. The result is empty exactly when every character is at most U+0020. |
| JavaText.TrimIsSlice | src/NotificationModule.java:108 | The result of `trim` is the slice of the input that starts after the leading blanks. Every character before that slice and every character after it is a blank. |
| JavaText.TrimIdempotent | src/UserManagementModule.java:632-633 | Trimming an already trimmed field changes nothing. |
| JavaText.IndexOf | src/FlightManagementModule.java:308-313 | `indexOf` returns the first position where the text occurs. When it returns nothing, the text occurs nowhere. |
| JavaText.IndexOfFindsFirst | src/FlightManagementModule.java:309 | An occurrence with none before it is the one `indexOf` reports. |
| JavaText.Contains | src/RefundModule.java:207-209 | `contains` holds exactly when the text occurs at some position. |
| JavaText.StartsWithFindsAtFront | src/SeatSelectionModule.java:131 | `startsWith` holds exactly when `indexOf` finds the prefix at position 0. |
| JavaText.PrefixBefore | src/FlightManagementModule.java:308-313 | With a separator present: the text before its first occurrence, followed by the separator, is a prefix of the item, and that text holds no separator. Without one: the whole item. |
| JavaText.SplitHeadIsPrefix | src/FlightManagementModule.java:334 | Element 0 of `split(" - ")` is the text before the first separator whenever that text is not empty. |
| JavaText.Split | src/FlightManagementModule.java:334 | No element of `split(" - ")` holds the separator. When the separator occurs, the trailing empty strings are gone, so the last element is not empty. |
| JavaText.ReplaceAll | src/NotificationModule.java:143-153 | Replacing the target by itself leaves the text unchanged. |
| JavaText.ReplaceAllSkipsPlainPrefix | src/NotificationModule.java:143-153 | `replace` copies unchanged any text in which the target's first character never occurs. |
| JavaText.ReplaceAllAtFront | src/NotificationModule.java:143-153 | An occurrence at the front is replaced, and the scan resumes after it. |
| JavaText.PlainTextUnchanged | src/NotificationModule.java:143-153 | Text without the target's first character comes back from `replace` as it was. |
| JavaText.NatToString | src/FlightManagementModule.java:379 | `String.valueOf` of a non-negative number is a non-empty string of decimal digits whose decimal value is the number. It has a leading `0` only for zero itself. |
| JavaText.NatToStringInjective | src/FlightManagementModule.java:379 | Different numbers give different digit strings. |
| BookedFlights.FirstBookedFlight | src/RefundModule.java:60 | The first booked label contains MU5112, and contains neither CA1833 nor CZ3108. |
| BookedFlights.SecondBookedFlight | src/RefundModule.java:61 | The second booked label contains CA1833 and does not contain MU5112. |
| BookedFlights.ThirdBookedFlight | src/RefundModule.java:62 | The third booked label contains CZ3108, and contains neither MU5112 nor CA1833. |
| Refund.TruncDivExceeds | src/RefundModule.java:203-218 | The truncated whole hours exceed k exactly when at least k + 1 full hours remain. A past departure exceeds no bound. |
| Refund.TruncDiv | src/RefundModule.java:203 | `long` division by the hour rounds toward zero. A non-negative gap gives the number of whole hours it holds. A negative gap gives a quotient ≤ 0, with the gap between (q − 1) and q hours, the upper end included. |
| Refund.TicketPrice | src/RefundModule.java:206-209 | Every label gets a price of at least 900, including one that names no known flight. |
| Refund.PricesOfBookedFlights | src/RefundModule.java:206-209 | The three booked flights cost 1200, 1500 and 900. |
| Refund.FirstMatchWins | src/RefundModule.java:207 | A label containing MU5112 costs 1200, whatever else it contains. |
| Refund.SecondEntryWithoutFirst | src/RefundModule.java:206-209 | A label with CA1833 and without MU5112 costs 1500. |
| Refund.ThirdEntryWithoutEarlier | src/RefundModule.java:206-209 | A label with CZ3108 and with neither MU5112 nor CA1833 costs 900. |
| Refund.DefaultPriceWhenUnlisted | src/RefundModule.java:206-209 | A label with none of the three flight numbers keeps the default price of 1000. |
| Refund.CheckPolicy | src/RefundModule.java:192-235 | A date that fails to parse: not refundable, "航班信息异常". Otherwise, at least 25 hours ahead: full refund with no fee. 3 to 24 hours ahead: 80% back and a 20% fee. Less: refused. A refundable result has amount + fee equal to the ticket price and 0 ≤ fee < amount, and its departure time is the label's last ten characters followed by " 14:00". A refused result has amount 0 and no departure time. |
| Refund.BoundariesFallIntoTheLowerTier | src/RefundModule.java:203-228 | Exactly 24 hours before departure gives the 20% tier. Exactly 2 hours, or any moment after departure, is refused. |
| Refund.RefundScreen.constructor | src/RefundModule.java:17-125 | The window opens with no result shown, no refundable amount and confirm disabled. |
| Refund.RefundScreen.CheckRefundPolicy | src/RefundModule.java:140-164 | Two cases end the handler with nothing changed: no selection, which alone returns the "请选择要退票的航班" warning, and a label under ten characters (`substring` throws, no dialog). Otherwise the policy result is shown and confirm is enabled exactly when it is refundable. The stored amount changes only then, to the shown amount. |
| Refund.RefundScreen.ProcessRefund | src/RefundModule.java:166-189 | A confirmed refund pays out exactly the stored amount and closes the window. Declining changes nothing. |
| Refund.CheckThenConfirm | src/RefundModule.java:150-177 | Confirming right after a refundable check pays out the amount that check computed. That amount is the full price or 80% of it. |
| Reschedule.OriginalPrice | src/RescheduleUpgradeModule.java:235-237 | The booked fare is 900, 1200 or 1500. It is 1500 exactly when the label contains CA1833. Otherwise it is 900 when the label contains CZ3108, and 1200 when it contains neither. |
| Reschedule.CabinPrice | src/RescheduleUpgradeModule.java:240-243 | Economy keeps the booked fare. Business costs 2800 and first class 3800, whatever the booked fare. |
| Reschedule.FlightFactor | src/RescheduleUpgradeModule.java:246-247 | The adjustment is 1.1, 0.9 or 1. It is 1.1 whenever the label contains MU5113, 0.9 when it contains CA1835 but not MU5113, and 1 exactly when it contains neither. |
| Reschedule.PriceDifference | src/RescheduleUpgradeModule.java:227-252 | The difference lies between -150 and 3280, and an upgrade always costs at least 1020. A business upgrade costs 2800 times the adjustment minus the booked fare, and a first-class one 3800 times the adjustment minus the booked fare. In economy, the difference is exactly the adjustment applied to the booked fare. It is zero exactly for economy on an unadjusted flight, and negative exactly for economy on the cheaper flight. |
| Reschedule.UpgradesFromBookedFlights | src/RescheduleUpgradeModule.java:235-249 | Business on MU5115 from MU5112 costs 1600 more, and first class on MU5113 from CA1833 costs 2680 more. |
| Reschedule.SimulateCheckAvailability | src/RescheduleUpgradeModule.java:227-233 | Always available, with 1 to 10 seats left, and carries the price difference. |
| Reschedule.TargetFlightFactors | src/RescheduleUpgradeModule.java:77-81 | The offered targets have adjustments 1.1 (MU5113), 1 (MU5115) and 0.9 (CA1835). |
| Reschedule.BookedFares | src/RescheduleUpgradeModule.java:235-237 | The three booked flights have fares 1200, 1500 and 900. |
| Reschedule.EconomyChangesFromFirstBooking | src/RescheduleUpgradeModule.java:240-249 | In economy from MU5112: +120 to MU5113, 0 to MU5115, and -120 (a credit) to CA1835. |
| Reschedule.ConfirmCaption | src/RescheduleUpgradeModule.java:175 | The button reads "支付并改签" exactly when the difference is at least 0. |
| Reschedule.RescheduleScreen.CheckAvailability | src/RescheduleUpgradeModule.java:147-181 | Equal flights only raise the warning, with no state change. Otherwise the difference is stored, confirm is enabled, and the caption follows the difference. |
| Reschedule.RescheduleScreen.ProcessReschedule | src/RescheduleUpgradeModule.java:183-207 | A charge happens exactly when the stored difference is positive and the payment dialog is confirmed. The change completes exactly when the difference is not positive or the payment was confirmed. |
| Reschedule.RescheduleScreen.CompleteReschedule | src/RescheduleUpgradeModule.java:209-224 | The confirmation names the flights, the cabin, the processing time and the stored difference, and the window closes. |
| Reschedule.RescheduleScreen.constructor | src/RescheduleUpgradeModule.java:18-135 | The window opens with no result, a zero stored difference, and confirm disabled under the caption "确认改签". |
| Reschedule.SimulatePayment | src/RescheduleUpgradeModule.java:255-258 | The simulated payment always succeeds. |
| Reschedule.CheckThenConfirm | src/RescheduleUpgradeModule.java:147-207 | Checking a change and then agreeing completes it, with a confirmation stamped with the given time. A positive difference is charged exactly once. A zero or negative one is not charged. An upgrade is always charged. |
| Users.Authenticate | src/UserManagementModule.java:45-68 | A credential comes back exactly when the user exists, the password matches exactly and the status is "active". It carries the username, the role and the clock. |
| Users.WithRole | src/UserManagementModule.java:208-222 | The role update changes that row's role and nothing else. |
| Users.WithStatus | src/UserManagementModule.java:224-238 | The status update changes that row's status and nothing else. |
| Users.WithPassword | src/UserManagementModule.java:240-254 | The password reset changes that row's password and nothing else. |
| Users.WithNewUser | src/UserManagementModule.java:256-272 | Insertion adds one active row with the given fields and keeps the others. |
| Users.WithoutUser | src/UserManagementModule.java:274-287 | Deletion removes that row only. |
| Users.FlipStatus | src/UserManagementModule.java:719 | The toggle gives "active" exactly when the status was not "active", and "inactive" otherwise. |
| Users.FlipTwice | src/UserManagementModule.java:719 | Toggling twice restores "active" and "inactive". |
| Users.ToggleTwiceRestoresTable | src/UserManagementModule.java:711-737 | Freezing and then unfreezing gives back the table as it was. |
| Users.NewUserCanLogIn | src/UserManagementModule.java:256-264 | A freshly created account logs in with its password and role. |
| Users.FrozenUserCannotLogIn | src/UserManagementModule.java:58-66 | A frozen account cannot log in, whatever the password. |
| Users.ResetPasswordReplacesLogin | src/UserManagementModule.java:240-251 | After a reset only the new password logs in. |
| Users.DeletedUserCannotLogIn | src/UserManagementModule.java:274-291 | A deleted account no longer exists and cannot log in. |
| Users.CheckNewUser | src/UserManagementModule.java:772-800 | The checks run in this order, and the first failure decides: empty field, username under 3, password under 6, phone not `1[3-9]` plus nine digits, username taken. The account is accepted exactly when all pass. |
| Users.IsMobilePhone | src/UserManagementModule.java:791 | A phone that matches `^1[3-9]\d{9}$` is eleven ASCII digits long. |
| Users.CreateErrorMessagesDistinct | src/UserManagementModule.java:772-800 | Each refusal of a new account has its own message. |
| Users.CreatedReportShowsAccount | src/UserManagementModule.java:805-812 | The creation report shows the new username, phone and role, each on its own line. |
| Users.TempPasswordAlphabetAvoidsLookalikes | src/UserManagementModule.java:875 | The alphabet has 55 characters, none of them I, O, i, l, o, 0 or 1. |
| Users.GenerateTempPassword | src/UserManagementModule.java:873-882 | The password has 8 characters. Each is the drawn character of the alphabet, so none is a lookalike. |
| Users.UserDatabase.constructor | src/UserManagementModule.java:314-318 | A new table holds admin, user1 and user2. user2 is inactive. |
| Users.UserDatabase.GetUserByUsername | src/UserManagementModule.java:160-182 | Finds the row exactly when the username is a key. |
| Users.UserDatabase.GetUserByPhone | src/UserManagementModule.java:184-206 | Finds some row with that phone exactly when one exists. |
| Users.UserDatabase.UserExists | src/UserManagementModule.java:289-291 | True exactly when the username is a key. |
| Users.UserDatabase.FindUser | src/UserManagementModule.java:640-645 | A non-empty username decides alone. The phone is used only without a username. |
| Users.UserDatabase.UpdateUserRole | src/UserManagementModule.java:208-222 | True exactly when the row exists; then only its role changes. |
| Users.UserDatabase.UpdateUserStatus | src/UserManagementModule.java:224-238 | True exactly when the row exists; then only its status changes. |
| Users.UserDatabase.ResetUserPassword | src/UserManagementModule.java:240-254 | True exactly when the row exists; then only its password changes. |
| Users.UserDatabase.CreateUser | src/UserManagementModule.java:256-272 | True exactly when the username is new; then one active row is added. |
| Users.UserDatabase.DeleteUser | src/UserManagementModule.java:274-287 | True exactly when the row existed. Afterwards it is gone. |
| Users.FreezeCaptionFor | src/UserManagementModule.java:670 | The button offers "冻结账户" exactly for an active account. |
| Users.UserInfoTextShowsUser | src/UserManagementModule.java:648-657 | The search result shows the user's name, phone and role, each on its own line, and the status line reads "正常" for an active account and "已冻结" otherwise. |
| Users.ResetReportShowsPassword | src/UserManagementModule.java:692-704 | The reset report shows the new password: as sent to the phone, or, when sending failed, for sending again. |
| Users.StatusReportNamesNewStatus | src/UserManagementModule.java:724-730 | The freeze report names the new status: "已解冻" for an active account, "已冻结" otherwise. |
| Users.UserManagementScreen.constructor | src/UserManagementModule.java:333-451 | The screen opens with empty fields, the first role selected, the actions disabled, every result area empty, and the freeze button captioned "冻结/解冻" until a search or a toggle sets it. |
| Users.UserManagementScreen.SearchUser | src/UserManagementModule.java:631-677 | Both fields empty after trimming gives an error and changes no field. Otherwise the search follows the priority and shows what it found. A found user fills the fields, enables the actions, takes a listed role into the role box, and sets the freeze caption from the status. |
| Users.UserManagementScreen.ResetPassword | src/UserManagementModule.java:680-708 | An unknown user only gets a notice. Otherwise an 8-character temporary password is stored and reported, sent or not. |
| Users.UserManagementScreen.ToggleFreeze | src/UserManagementModule.java:711-737 | An unknown user only gets a notice. Otherwise the status flips, is stored and reported, and the caption follows it. |
| Users.UserManagementScreen.AssignRole | src/UserManagementModule.java:740-763 | An unknown user only gets a notice. Otherwise the chosen role is stored. |
| Users.UserManagementScreen.CreateUser | src/UserManagementModule.java:766-823 | The trimmed inputs go through the validation chain. A refusal leaves the table, the input fields and the role as they were and shows the matching message. Acceptance inserts the active row with the selected role, shows the creation report, clears the three input fields and resets the role to the first one. |
| Users.UserManagementScreen.DeleteUser | src/UserManagementModule.java:826-871 | An empty name, an unknown user and a declined confirmation each leave the table and the name field as they were, and show "请输入要删除的用户名", "用户不存在" and "删除操作已取消" respectively. Only a confirmed delete of an existing user removes the row, shows the success text and clears the name field. |
| Flights.AirportCode | src/FlightManagementModule.java:308-313 | The code is the text before the first " - ", which holds no separator, or the whole item when there is none. |
| Flights.AircraftId | src/FlightManagementModule.java:334 | The id is element 0 of `split(" - ")`: the text before the first separator when that is not empty. There is no id exactly when the split is empty, where indexing throws. |
| Flights.AirportCodeOfCatalogueEntry | src/FlightManagementModule.java:426 | "PEK - 北京首都国际机场" gives the code "PEK". |
| Flights.AircraftIdOfCatalogueEntry | src/FlightManagementModule.java:448 | "B-001A - A320 (180座)" gives the id "B-001A". |
| Flights.SeparatorAloneHasNoAircraftId | src/FlightManagementModule.java:334 | An item that is only " - " splits into nothing, so there is no id. |
| Flights.CheckForm | src/FlightManagementModule.java:289-362 | Each refusal is reported exactly when every earlier check passes and its own fails. The order is: a required field empty, a time unparsable, arrival not after departure, price unparsable, price ≤ 0, no aircraft id readable (the unexpected-error branch). Acceptance holds exactly when all pass. The accepted entry holds the trimmed fields and the extracted codes. |
| Flights.FlightId | src/FlightManagementModule.java:379 | The id is "FL" followed by the decimal digits of the current time in milliseconds: their value is that time, with no leading zero unless the time is zero. |
| Flights.SeatsFor | src/FlightManagementModule.java:454-468 | The aircraft's total seats, or 180 for an unknown aircraft. |
| Flights.NullIfEmpty | src/FlightManagementModule.java:400-401 | An empty gate or terminal is stored as NULL, anything else as it is. |
| Flights.NewRow | src/FlightManagementModule.java:379-401 | The new row's status is "scheduled", and its times are the inputs plus ":00". Its seats are the given count, and an empty gate or terminal is NULL. |
| Flights.FlightDatabase.GetAircraftSeats | src/FlightManagementModule.java:454-468 | The lookup falls back to 180. |
| Flights.FlightDatabase.SaveFlight | src/FlightManagementModule.java:365-410 | Saving succeeds exactly when the flight number is new and the id unused, and then adds exactly one row. Otherwise the table is unchanged. Flight numbers stay unique. |
| Flights.ErrorMessage | src/FlightManagementModule.java:303-360 | Every refusal message starts with "错误：". |
| Flights.FlightEntryScreen.SubmitFlightInfo | src/FlightManagementModule.java:289-362 | A refused form shows its message and writes nothing. An accepted one is saved with the save rules and shows the summary, or the save-failed message. |
| Flights.FlightDatabase.constructor | src/FlightManagementModule.java:365-410 | The flights table starts empty, next to the given aircraft table. |
| Flights.FlightEntryScreen.constructor | src/FlightManagementModule.java:40-264 | The window opens with an empty result area, writing to the given database. |
| Seats.SeatMapIsRectangular | src/SeatSelectionModule.java:186-203 | The layout has 10 rows of 12 cells. |
| Seats.SimulateGetSeatMap | src/SeatSelectionModule.java:186-203 | Every order and every preference gets the same layout. |
| Seats.Classify | src/SeatSelectionModule.java:106-141 | A cell gives a clickable button exactly when it is no special area and starts with "O". That button is labelled by the rest of its text, in white. Special areas are disabled and coloured. |
| Seats.CellButton | src/SeatSelectionModule.java:97-141 | Every layout cell at a seat position becomes an enabled white button labelled by row digit and column letter. Every other cell becomes a disabled area whose text is a special label or empty. |
| Seats.SeatLabelsAreDistinct | src/SeatSelectionModule.java:190-196 | Two seat positions with the same label are the same position. |
| Seats.ClassifyRowsIndex | src/SeatSelectionModule.java:97-146 | With 12 cells to a row, button k comes from row k / 12, column k % 12. |
| Seats.LoadedPanel | src/SeatSelectionModule.java:97-146 | The loaded panel has 120 buttons, in row-major order of the layout. |
| Seats.LoadedPanelButtons | src/SeatSelectionModule.java:186-203 | Button k is clickable exactly at the 7 × 8 seat positions (rows 1–7, columns A–H). It is then labelled by row digit and letter. No button is highlighted. |
| Seats.LoadedSeatLabelsAreUnique | src/SeatSelectionModule.java:190-196 | No other button of a loaded panel carries a seat's label. |
| Seats.LastIndex | src/SeatSelectionModule.java:144 | The registry maps each text on the panel to the last button with that text. |
| Seats.UniqueTextIsRegistered | src/SeatSelectionModule.java:144 | A text that occurs once is registered at its own button. |
| Seats.LoadedPanelRegistersSeats | src/SeatSelectionModule.java:144 | Every seat of a loaded panel is registered under its own label. |
| Seats.SeatSelectionScreen.LoadSeatMap | src/SeatSelectionModule.java:85-150 | Loading clears the selection, disables confirm and lays out the panel, registering each button as it is added. |
| Seats.SeatSelectionScreen.constructor | src/SeatSelectionModule.java:17-83 | The window opens with an empty panel, no selection and confirm disabled. |
| Seats.SeatSelectionScreen.SelectSeat | src/SeatSelectionModule.java:152-164 | Registered, enabled, non-special buttons go back to white. The clicked seat turns cyan and becomes the selection, and confirm is enabled. |
| Seats.SeatSelectionScreen.ResetColors | src/SeatSelectionModule.java:154-159 | The reset repaints exactly the registered, enabled, non-special buttons. Afterwards nothing is highlighted. |
| Seats.SeatSelectionScreen.ConfirmSelection | src/SeatSelectionModule.java:166-183 | Without a selection nothing happens. With one, that seat is confirmed and the window closes. |
| Seats.AtMostOneHighlighted | src/SeatSelectionModule.java:152-164 | At most one button is highlighted. |
| Orders.Filtered | src/OrderManagementModule.java:86-90 | A row is kept exactly when it passes the filter, and no row is added. |
| Orders.AllKeepsEveryRow | src/OrderManagementModule.java:87 | "全部" keeps every row in order. |
| Orders.FilteredOfAppend | src/OrderManagementModule.java:86-90 | Filtering keeps the rows' order: the filter of a concatenation is the concatenation of the filters. |
| Orders.SampleFilterResults | src/OrderManagementModule.java:80-88 | "全部" shows all three sample orders. 待支付, 已完成 and 已退票 each show exactly one: ORD1002, ORD1001 and ORD1003. |
| Orders.EveryOptionFindsAnOrder | src/OrderManagementModule.java:34 | No option of the status box gives an empty table. |
| Orders.OrderScreen.constructor | src/OrderManagementModule.java:65-69 | Opening the window shows all three sample orders. |
| Orders.OrderScreen.LoadOrders | src/OrderManagementModule.java:75-95 | The table becomes exactly the filtered sample, whatever it held before. The notice is shown exactly when the table is empty. |
| Orders.OrderScreen.SelectStatus | src/OrderManagementModule.java:65-66 | Choosing an option reloads the table with that filter. |
| Orders.SelectThenRefresh | src/OrderManagementModule.java:75-95 | Reloading with the same filter gives the same, non-empty table. |
| Notifications.FillTemplate | src/NotificationModule.java:139-157 | An unknown event type leaves the template as it is. A template without `{` is left as it is by every event type. |
| Notifications.ReplaceAllSkipsOtherPlaceholder | src/NotificationModule.java:143-144 | Replacing `{orderId}` leaves `{amount}` and the text after it for the next replacement. |
| Notifications.FillTwoPlaceholders | src/NotificationModule.java:141-153 | A template `p0 {a} p1 {b} p2` becomes `p0 va p1 vb p2`, with no `{` left. |
| Notifications.FilledMessages | src/NotificationModule.java:15-21 | The four filled messages, spelled out: the order and amount for payment and refund, the flight and time for delay and change. No placeholder remains in any of them. |
| Notifications.NotificationScreen.SendNotification | src/NotificationModule.java:106-137 | A contact that is blank after trimming, or an event type without a template, gives an error with nothing appended. Otherwise the filled message is sent. Success appends its three lines and failure its one line. The area is only ever appended to. |
| Notifications.NotificationScreen.constructor | src/NotificationModule.java:23-85 | The window opens with an empty result area. |
| Notifications.SendListedEvent | src/NotificationModule.java:117-133 | A successful send of any listed event logs a message with no placeholder left. |
| FlightQuery.DatePatternMeansDateShape | src/FlightQueryModule.java:163 | `\d{4}-\d{2}-\d{2}` matches exactly the ten-character strings with dashes at 4 and 7 and ASCII digits elsewhere. |
| FlightQuery.IsValidDate | src/FlightQueryModule.java:161-171 | A date passes exactly when it has that shape, parses, and its midnight is strictly after now. So today never passes. |
| FlightQuery.FlightQueryScreen.Query | src/FlightQueryModule.java:137-147 | An invalid date, and only an invalid date, shows the dialog "日期无效（必须为未来日期且格式为YYYY-MM-DD）" and keeps the result. A valid one shows the fixed two-flight result. |
| FlightQuery.FlightQueryScreen.constructor | src/FlightQueryModule.java:37-123 | The window opens with empty departure, destination and date fields, economy selected and an empty result. |
| FlightQuery.FlightQueryScreen.Return | src/FlightQueryModule.java:149-155 | Both fields and the date are cleared, the cabin is back to economy, and the result is empty. |
| FlightQuery.ReturnThenQuery | src/FlightQueryModule.java:138-155 | A query right after return is refused with the invalid-date dialog, and the result stays empty. |

## Left out

- Swing layout, fonts, colours other than the seat buttons', dialogs and `main` launchers are not modelled. Dialogs appear only as the outcome values the handlers return.
- JDBC plumbing is not modelled: connections, SQL text and `SQLException` handling. The users and flights tables are in-memory maps keyed by their primary keys. So the "database update failed" branches of the user handlers cannot occur in the model.
- A failed connection in the flight insert is not modelled. A duplicate `flight_id` still makes the save return false.
- Foreign keys between tables are not enforced, because the code never relies on them.
- PaymentModule, DatabaseRebuildTool, DatabaseTest, LoginWindow and TestFlightDates are not part of this model. They are layout, schema set-up, connectivity checks, or code that calls methods that no longer exist.
- The static `AIRCRAFT_SEATS` map of the flight screen is not modelled, because the save path never reads it. Seats come from the aircraft table.
- The order ledger, seat reservation, order state machine and refund records are not modelled: no code writes them.
- Floating point is not modelled. Prices are exact reals, so for example 1200 × 1.1 is exactly 1320 rather than the nearest `double`. NaN and infinite prices from `Double.parseDouble` are not modelled.
- Number formatting is not modelled: `String.format` with `%.2f` on the refund and reschedule labels, and `Double.toString`. The latter is taken as an input text for the flight summary.
- Date parsing and the clock are oracles. This covers lenient `SimpleDateFormat`, `LocalDateTime.parse` and `new Date()`. So the model does not decide which texts parse, or to which instant.
- Flights.CheckForm: an unexpected exception reports only "错误：" without the exception's own message text.
- Flights.FlightEntryScreen.SubmitFlightInfo: the form clearing after a successful save is not modelled, because the form is an input value.
- Users.UserManagementScreen.DeleteUser: the current time appears as the input text `nowText`. The model does not compute `Date.toString`.
- Reschedule.RescheduleScreen.CompleteReschedule: the processing time appears as the input text `nowText`. The model does not format the clock with "yyyy-MM-dd HH:mm".
- Flights.FlightDatabase.constructor: the flights table starts empty. The rows an existing database already holds are not known to the model; every save rule holds for any starting table.
- Users.CheckNewUser: string lengths count Unicode scalar values, so a character outside the Basic Multilingual Plane counts as one where Java's `length()` counts two UTF-16 units. This matters for the username (at least 3) and password (at least 6) length checks: "a😀" is a too-short username here and long enough in Java, and so is the password "ab😀😀".
- The exact count of 56 seats is not stated as a number. Seats.LoadedPanelButtons states it as the 7 × 8 seat positions.

# hue: a model of a colourful slog handler

hue is a `log/slog` handler for Go. It writes one line per record:

```
[time ]LEVEL [<file:line> ][prefix ]message key=value key=value \n
```

Each segment is styled through lipgloss. A handler is derived from its parent in two ways:

- `WithGroup` extends a dotted key prefix.
- `WithAttrs` pre-renders attributes into two byte buffers, so later records pay nothing for them.
  - When `AddPrefix` is set, an attribute whose value implements `PrefixAttr` (a service name, say) goes to the prefix buffer, followed by `"."`.
  - Every other attribute, and every attribute when `AddPrefix` is off, is written as `key=value ` into the attribute buffer.

When a record is handled, the line concatenates these pieces:

- the styled time (omitted for a zero time);
- the level;
- the source location, when `AddSource` is set;
- the prefix buffer with its final `"."` turned into a space, when `AddPrefix` is set;
- the message;
- the pre-rendered attributes, then the record's own.

The project models `handler.go`, `attrs.go` and `buffer.go` in these modules:

- **Text** turns Go strings and byte slices into `seq<byte>`. It also holds base-10 integer formatting with a parser that inverts it, `FormatBool`, and the file part of `filepath.Split`.
- **Slog** models the `slog` values hue consumes: `Value` with one constructor per kind, `Attr` and `Record`. `Dynamic` describes what a `KindAny` value implements: `StyledAttr`, `PrefixAttr`, `TextMarshaler`, `Stringer`, and what `%+v` prints.
- **Foreign** holds the library code hue calls, as uninterpreted function parameters. This covers lipgloss rendering, `strconv.Quote`, float, time and duration formatting, `Level.String` and `LogValuer` resolution.
- **Config** holds `Options`, `Styles`, and `New`'s defaults.
- **Attrs** holds the `StyledAttr`/`PrefixAttr` capabilities, `Err` and `Service`.
- **Buffers** models `buffer` as a class whose byte contents the write methods extend.
- **Render** holds what each writer appends, as functions of the handler state (`HState`). It also holds the states `WithAttrs` and `WithGroup` derive, and the assembled `Line`.
- **Handler** is `hueHandler` as a class. Its fields are the options, the group string and names, and two `Buffer` objects. Every method is proved to append exactly what Render says. `Valid()` keeps the invariant that the prefix buffer is empty or ends in `"."`.
- **Properties** states and proves the handler's promises about the Render functions.

Where hue's behaviour departs from what its API suggests, or from slog's documented Handler contract (a handler given an empty group name should return itself), the model follows the code. The departures are proved as properties:

- `WithGroup("")` is not a no-op: `EmptyGroupNameStillNests`.
- Every prefix attribute is collected, not only the first: `EveryPrefixAttrCollected`.
- The prefix is written as `svc `, with no colon: `ServicePrefixText`.
- A value is routed to the prefix when it implements `PrefixAttr`, whatever `Prefix()` returns: `PrefixResultIgnored`.
- `Handle` routes nothing. A `Service` attribute on the record itself goes through `writeAttr` and is written `service="svc"`, quoted, in the service style: `RecordServiceIsKeyValue`.
- Every attribute, the last one included, is followed by a space, so a zero-time Info record "boot" with port=8080 is written `INF boot port=8080 \n`: `BootLine`.
- `options.go` declares an `Options` struct with different fields (`SupportsColor`, `WithCaller`). The model uses the fields `handler.go` reads.

## Model

| member | source | states |
|---|---|---|
| Text.Digits | handler.go:316-319 | the decimal digits of a natural number: at least one, all digits, a leading zero only for 0 |
| Text.FormatIntRoundTrip | handler.go:316-319 | base-10 formatting of a signed integer is inverted by ParseInt |
| Text.FormatIntInjective | handler.go:316-319 | distinct integers are written differently |
| Text.FormatInt | handler.go:316-319 | strconv.FormatInt and FormatUint in base 10: at least one byte, a leading '-' exactly for a negative number, digits after it |
| Text.SplitFile | handler.go:203 | the file part filepath.Split gives: no longer than the path, and free of '/' |
| Text.FormatBool | handler.go:315 | a bool is written "true" exactly when it is true, "false" otherwise |
| Text.SplitFileSpec | handler.go:203-206 | the file part of a path is a suffix with no '/', preceded by '/' when it is not the whole path |
| Slog.IsZeroTime | handler.go:124 | rec.Time.IsZero(): the instant is the zero time, in whatever location |
| Slog.IsZero | handler.go:255 | attr.Equal(slog.Attr{}): the attribute is the zero Attr, an empty key with a nil any |
| Foreign.Lib.Resolve | handler.go:286 | Value.Resolve: a value that is not a LogValuer resolves to itself |
| Config.NewOptions | handler.go:35-60 | a nil options pointer gives Info level, "15:04:05", AddPrefix, no source, the identity hook, the default styles and file links; given options are kept as they are, with only missing styles filled in |
| Attrs.StyleOf | handler.go:288-290 | a value has a style of its own only when its Any() implements StyledAttr, and the style is the one it supplies |
| Attrs.IsPrefixAttr | handler.go:106 | the PrefixAttr assertion: only a value of kind Any or LogValuer can be a prefix attribute, and it carries a dynamic value |
| Attrs.ErrorAttr | attrs.go:22-32 | the wrapped error supplies the error style, is not a prefix, and prints its message |
| Attrs.Err | attrs.go:24-30 | Err's key is "err"; a nil error stays a nil any with no style; any other error is wrapped and styled with the error style, and is not a prefix |
| Attrs.ServiceAttr | attrs.go:35-38 | a service name supplies the service style, is a prefix (Prefix() returns true), and prints as the name |
| Attrs.Service | attrs.go:40-42 | Service's key is "service", and its value is styled and routed to the prefix |
| Buffers.Buffer.constructor | buffer.go:5 | a new buffer is empty |
| Buffers.Buffer.Of | buffer.go:5 | a buffer holding a copy of the given bytes |
| Buffers.Buffer.Write | buffer.go:7-10 | Write appends p, reports len(p) and no error |
| Buffers.Buffer.WriteString | buffer.go:12-14 | WriteString appends the string's bytes |
| Buffers.Buffer.WriteQuoted | buffer.go:16-18 | WriteQuoted appends the quoted string |
| Render.AttrStyle | handler.go:285-293 | the resolved value, the value's own style when it has one (found), the configured attribute style otherwise |
| Render.Replace | handler.go:251-253 | the hook's result, never larger than the attribute given |
| Render.AttrsTextAppend | handler.go:265-267 | attributes are written independently and in order: the text of xs ++ ys is the text of xs then of ys |
| Render.Unrouted | handler.go:105-112 | no attribute handed to writeAttr by WithAttrs is a routed prefix attribute |
| Render.Routed | handler.go:106 | WithAttrs routes an attribute to the prefix only when AddPrefix is set and its value, of kind Any or LogValuer, implements PrefixAttr; with AddPrefix off nothing is routed |
| Render.Hyperlink | handler.go:225-227 | an OSC 8 hyperlink: the opener with the URL, the label, the closer; its length is theirs together |
| Render.PrefixEntriesAppend | handler.go:105-108 | the prefix entries of xs ++ ys are those of xs then those of ys |
| Render.UnroutedAppend | handler.go:105-112 | the unrouted attributes of xs ++ ys are those of xs then those of ys |
| Render.PrefixEntriesDotTerminated | handler.go:106-108 | what WithAttrs collects for the prefix is empty or ends with "." |
| Render.DotTerminatedAppend | handler.go:114 | appending "."-terminated entries to a "."-terminated prefix keeps it "."-terminated |
| Handler.Handler.New | handler.go:35-60 | a valid handler with the options of Config.NewOptions, no groups and empty buffers |
| Handler.Handler.Clone | handler.go:62-74 | a valid handler in the same state, with buffers of its own |
| Handler.Handler.Enabled | handler.go:76-83 | a level is enabled exactly when it is at least the Leveler's level, or Info when there is none |
| Handler.Handler.WithGroup | handler.go:85-91 | a fresh valid handler whose group string gains name + "." and whose group names gain name; the parent is unchanged |
| Handler.Handler.WithAttrs | handler.go:93-118 | for an empty list, the handler itself; otherwise a fresh valid handler whose buffers are extended as WithAttrsState says; the parent is unchanged |
| Handler.Handler.SplitAttrs | handler.go:103-112 | preBuf holds the prefix entries of the routed attributes, attrBuf the text of the others, each in order |
| Handler.Handler.Handle | handler.go:120-153 | the line written is exactly Render.Line of the handler's state and the record |
| Handler.Handler.WriteTime | handler.go:185-188 | appends the styled formatted time and a space |
| Handler.Handler.WriteLevel | handler.go:190-200 | appends the level's own style, or the attribute style showing Level.String(), and a space |
| Handler.Handler.WriteSource | handler.go:202-222 | appends "<file:line>", hyperlinked when SourceLink gives a link, and a space; nothing when the path has no file part |
| Handler.Handler.WritePrefix | handler.go:229-236 | appends the prefix buffer with its last byte replaced by a space; nothing when it is empty |
| Handler.Handler.WriteAttrs | handler.go:238-248 | appends the pre-rendered attributes, then the record's own attributes |
| Handler.Handler.WriteAttr | handler.go:250-283 | appends what Render.AttrText says: nothing for a tombstone, a group's children under "key.", or key=value and a space |
| Handler.Handler.WriteGroup | handler.go:265-267 | appends the children's texts in order |
| Handler.Handler.WriteAttrKey | handler.go:295-297 | appends "{prefix}{key}=" in the given style |
| Handler.Handler.WriteAttrValue | handler.go:299-301 | appends the value, quoted |
| Handler.Handler.WriteStyledAttrValue | handler.go:303-340 | appends the value's text for its kind, in the given style |
| Properties.DefaultMinimumIsInfo | handler.go:76-83 | with no Leveler, a level is enabled exactly when it is at least Info: Info, Warn and Error are, Debug is not |
| Properties.LevelStyleChoice | handler.go:190-200 | a level with its own style is shown in it whatever the attribute style; any other level is shown as the attribute style set to Level.String(), whatever the styles of other levels |
| Properties.EnabledIsMonotone | handler.go:82 | once a level is enabled, every higher level is too |
| Properties.ValueTextFromRawText | handler.go:303-340 | a value is written as its raw text; only String, Time and Any are quoted; Bool, integers, Float and Duration never are; a failed MarshalText, a group and an unresolved LogValuer write nothing; TextMarshaler wins over Stringer, which wins over %+v |
| Properties.IntValueRoundTrip | handler.go:316-317 | an Int64 value's text parses back to the integer |
| Properties.UintValueRoundTrip | handler.go:318-319 | a Uint64 value's text parses back to the integer |
| Properties.NonZero | handler.go:255-257 | no attribute left after removing zero attributes is zero |
| Properties.TombstoneWritesNothing | handler.go:251-257 | an attribute the hook turns into the zero Attr writes nothing |
| Properties.ZeroAttrsLeaveNoTrace | handler.go:255-257 | with no rewriting hook, a list with zero attributes writes exactly what the list without them does |
| Properties.GroupFlattens | handler.go:251-269 | for any hook, when ReplaceAttr returns a keyed group, its children are written under "key." with the key added to the group names |
| Properties.EmptyKeyGroupIsTransparent | handler.go:251-269 | for any hook, when ReplaceAttr returns a group with an empty key, its children are written inline under the unchanged prefix |
| Properties.LeafLayout | handler.go:251-283 | for any hook, a leaf that ReplaceAttr returns (not zero, not a group) is written as the faint key with "=", its quoted resolved value in its own style or unstyled, then a space |
| Properties.NestedGroupMatchesWithGroup | handler.go:85-91 | WithGroup(g1).WithGroup(g2) then an attribute writes the same line as WithGroup(g1) then the group {g2: attribute} |
| Properties.EmptyGroupNameStillNests | handler.go:85-91 | WithGroup("") appends "." and an empty group name, so it changes the state |
| Properties.WithGroupKeepsBuffers | handler.go:85-91 | WithGroup keeps the options and both pre-rendered buffers: group prefixes are not retroactive |
| Properties.WithAttrsAssociative | handler.go:93-118 | attaching xs then ys gives the same state as attaching xs ++ ys |
| Properties.UnroutedWhenNoneRouted | handler.go:105-112 | when nothing is routed, every attribute goes to writeAttr and the prefix entries are empty |
| Properties.PrerenderingMatchesPerEvent | handler.go:93-118 | a handler that attached non-prefix attributes writes the line its parent writes for the record carrying them first |
| Properties.NoPrefixWithoutAddPrefix | handler.go:106 | with AddPrefix off, the prefix buffer is unchanged and every attribute is pre-rendered |
| Properties.ServiceGoesToPrefix | handler.go:105-112 | Service goes to the prefix buffer, unstyled and unquoted, followed by "."; the attribute before it goes to the attribute buffer |
| Properties.EveryPrefixAttrCollected | handler.go:105-108 | two Service attributes both land in the prefix buffer, in order, and nothing is key=value |
| Properties.PrefixResultIgnored | handler.go:106 | a value whose Prefix() returns false is still routed to the prefix |
| Properties.PrefixTextReplacesFinalDot | handler.go:229-236 | the prefix segment is the prefix buffer minus its final ".", plus a space, in the prefix style |
| Properties.ServicePrefixText | handler.go:229-236 | a single Service name is written as "name " in the prefix segment |
| Properties.ErrUsesErrorStyle | attrs.go:24-32 | Err(e) writes err=<quoted message> in the error style, whatever the configured attribute style |
| Properties.ErrNilUsesAttrStyle | attrs.go:24-30 | Err(nil) writes err="<nil>" with the key in the attribute style and the value unstyled |
| Properties.RecordServiceIsKeyValue | handler.go:244-247 | a Service attribute on the record is not routed: it is written service="name", quoted, in the service style |
| Properties.OwnStyleWins | handler.go:288-292 | a value with its own style is written the same under any configured attribute style |
| Properties.HyperlinkShowsText | handler.go:225-227 | the hyperlink's label sits between the OSC 8 opener with its URL and the OSC 8 closer |
| Properties.SourceShowsFileAndLine | handler.go:202-222 | the source segment shows the path's file part (a suffix with no '/') and the line, hyperlinked when SourceLink gives a link; an empty file part writes nothing |
| Properties.TimeSegment | handler.go:123-126 | the time segment leads the line only for a non-zero time; the rest of the line is what the record with a zeroed time writes |
| Properties.BareLine | handler.go:120-153 | a record with a zero time, without source and prefix, is written as level, message, space, attributes, newline |
| Properties.BootLine | handler.go:35-60 | New with Level Info, an empty time format and no prefix writes "INF boot port=8080 \n" for a zero-time Info record "boot" with port=8080 |

## Left out

- The output writer, the mutex and the error `Write` returns: `Handle` returns the assembled line instead of writing it. The final write is I/O.
- `getSource` and `runtime.CallersFrames` (handler.go:164-183) are not modelled: the caller frame comes from the runtime. Records carry their `Source` directly, and an unresolved frame is modelled as a source with an empty file.
- lipgloss rendering, `strconv.Quote`, `strconv.FormatFloat`, `time.Format`, `Time.String`, `Duration.String`, `Level.String` and `LogValuer` resolution are foreign code. They are uninterpreted function parameters, and what they produce is not modelled.
- What `%+v` prints for a value is not computed: each dynamic value carries it as its `verbose` field.
- `DefaultStyles`, `FileSourceLink` and `serviceAttrStyle` are not part of this model. They are parameters. `errorAttrStyle` is a parameter too, though styles.go ties it to the error level style.
- `slices.Clip` in `clone` is modelled as copying the buffers. The aliasing it prevents, and the aliasing of the shared `groups` slice, are not modelled.
- Config.NewOptions: the ReplaceAttr hook must never return an attribute larger than the one it was given. Go does not require this. Without it, writeAttr's recursion need not terminate. The restriction also excludes hooks on which Go does terminate, for example one that expands a leaf into a group of two new leaves. Handlers with such hooks are outside the model.
- Source paths are split at '/' only. Windows separators are not modelled.
- The loops over a group's children and over the attributes of `WithAttrs` are the methods `WriteGroup` and `SplitAttrs`. Each does exactly what the inline loop does.
- Foreign.Lib.Resolve: a LogValuer is resolved by one call of the LogValue parameter, which may itself return a LogValuer; that leaf then writes its key and no value. Go's Value.Resolve calls LogValue repeatedly, up to a bound, and never yields a LogValuer.
- Handler.Handler.Enabled takes the Leveler's current level as a fixed value. A Leveler that changes between calls is not modelled.

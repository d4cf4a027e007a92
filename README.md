# Non-zero pixel scan and directory frame cursor

A Dafny model of two small sequential cores of Accord.NET Extensions.

**FindNonZero** (`FindNonZero.cs`) finds the non-zero pixels of a single-channel
image. It has three parts:

- A dictionary maps the image's channel type to an extraction routine. It is
  filled once by the static constructor, and only `float` is registered.
- The `float` routine walks the image row by row. A row pointer advances by the
  stride. For every non-zero element it appends `(col, row)` to a location list
  and the element to a parallel value list.
- The engine runs that routine on the sub-view of every region of the image. It
  appends each region's locations, translated by the region's corner, and the
  region's values to two shared lists. It holds two nested locks while it
  appends, first the one on the location list and then the one on the value
  list, so one region's batch goes into both lists in a single critical
  section.

**ImageDirectoryCapture** (`ImageDirectoryCapture.cs`) plays the image files of
a directory as video frames. It keeps a cursor, `currentFrame`, into a file list
that is fixed at construction:

- `Seek` moves the cursor relative to one of three origins and clamps it to
  `[0, Length]`.
- `Stop` rewinds the cursor to 0.
- Each timer tick either emits a null frame, when the cursor is at or past the
  end, or loads the file under the cursor and advances the cursor by one.

Files:

- `wrappers.dfy`: `Option` and `Result`.
- `find_non_zero_spec.dfy` (module `NonZeroSpec`): view geometry, the
  specification of one view's scan and of the region merge, and their
  properties.
- `find_non_zero.dfy` (module `FindNonZeroExtensions`): the registry, the
  strided extractor, the shared output lists and the engine, each proved
  against `NonZeroSpec`.
- `image_directory_capture.dfy` (module `DirectoryCapture`): the capture's
  cursor as a class, plus the tick and seek functions that specify it.

Modelling choices:

- Pixel values are `int`, and "non-zero" is `v != 0`.
- A view is a `Layout(base, width, height, stride)` into one flat buffer. The
  base, the width and the stride are counted in elements. Pixel `(col, row)` is
  element `base + row * stride + col`.
- The source's stride is in bytes. Its `float` pointer steps by `stride` bytes
  per row, which is `stride / 4` elements.
- The parallel processor is replaced by a loop over a given list of regions. It
  appends one region's whole batch at a time, which is what the two nested
  locks guarantee.
- A region list "tiles" the view when every region lies inside it, every pixel
  is in some region and no pixel is in two regions. The model makes this a
  hypothesis of the partition theorems, because the partitioner is not part of
  the model.

## Model

| member | source | states |
|---|---|---|
| `NonZeroSpec.ScanMembers` | Source/Imaging/Imaging.Algorithms/Filters/FindNonZero.cs:90-101 | A sample is in the scan of a view iff its location is inside the view, the element at `base + row*stride + col` is non-zero, and the sample carries that element. This gives soundness, completeness and location/value correspondence together. |
| `NonZeroSpec.ScanRowMajor` | Source/Imaging/Imaging.Algorithms/Filters/FindNonZero.cs:90-104 | The scan is in strictly increasing row-major order: an earlier row first, and within a row increasing columns. |
| `NonZeroSpec.ScanNoDuplicates` | Source/Imaging/Imaging.Algorithms/Filters/FindNonZero.cs:90-101 | No location appears twice in the scan of a view. |
| `NonZeroSpec.ScanAllZero` | Source/Imaging/Imaging.Algorithms/Filters/FindNonZero.cs:94-100 | A view whose elements are all zero yields no samples. |
| `NonZeroSpec.ScanIgnoresPadding` | Source/Imaging/Imaging.Algorithms/Filters/FindNonZero.cs:90-103 | Two buffers that agree on the view's pixels give the same scan. Stride padding past `width` and elements outside the rows are never read. |
| `NonZeroSpec.ExampleScan` | Source/Imaging/Imaging.Algorithms/Filters/FindNonZero.cs:79-107 | For a 4 x 3 view with stride 5 that is zero except 5 at (2,0) and -3 at (0,2), the scan is exactly `[((2,0),5), ((0,2),-3)]`, whatever the padding holds. |
| `NonZeroSpec.SubView` | Source/Imaging/Imaging.Algorithms/Filters/FindNonZero.cs:59 | The sub-view of a rectangle inside the view has the rectangle's size. Its pixel `(col,row)` is the parent's pixel `(col + x, row + y)`. |
| `NonZeroSpec.SubViewFits` | Source/Imaging/Imaging.Algorithms/Filters/FindNonZero.cs:59 | The sub-view of a rectangle inside a view that fits the buffer also fits the buffer. |
| `NonZeroSpec.RegionMembers` | Source/Imaging/Imaging.Algorithms/Filters/FindNonZero.cs:59-69 | A region's translated contribution holds exactly those non-zero samples of the whole image whose location lies in the region. |
| `NonZeroSpec.RegionRowMajor` | Source/Imaging/Imaging.Algorithms/Filters/FindNonZero.cs:59-69 | A region's contribution, translated to image coordinates, is in strictly increasing row-major order, as its local scan is. |
| `NonZeroSpec.MergedMembers` | Source/Imaging/Imaging.Algorithms/Filters/FindNonZero.cs:53-76 | After merging any list of regions, a sample is in the output iff it is a non-zero sample of the image and lies in one of the regions. |
| `NonZeroSpec.MergedMatchesWholeScan` | Source/Imaging/Imaging.Algorithms/Filters/FindNonZero.cs:53-76 | When the regions cover the view, the merged output holds the same (location, value) pairs as the scan of the whole view. |
| `NonZeroSpec.MergedNoDuplicates` | Source/Imaging/Imaging.Algorithms/Filters/FindNonZero.cs:53-76 | When the regions are pairwise disjoint, no location appears twice in the merged output. |
| `NonZeroSpec.MergedPermutesWholeScan` | Source/Imaging/Imaging.Algorithms/Filters/FindNonZero.cs:53-76 | When the regions tile the view, the merged output is a permutation of the whole-view scan: same multiset, same length. |
| `NonZeroSpec.MergedSingleRegion` | Source/Imaging/Imaging.Algorithms/Filters/FindNonZero.cs:53-76 | With one region that covers the view, the merged output equals the whole-view scan, row-major order included. |
| `FindNonZeroExtensions.Registry.constructor` | Source/Imaging/Imaging.Algorithms/Filters/FindNonZero.cs:16-21 | The static constructor leaves the dictionary holding exactly one entry, `float` mapped to the float routine. |
| `FindNonZeroExtensions.Registry.Lookup` | Source/Imaging/Imaging.Algorithms/Filters/FindNonZero.cs:46-48 | The lookup succeeds exactly when the channel type is a key of the dictionary, and yields the routine stored under it. A miss fails with the not-supported error naming that type. |
| `FindNonZeroExtensions.LookupOnlyFloat` | Source/Imaging/Imaging.Algorithms/Filters/FindNonZero.cs:46-48 | A lookup succeeds exactly for `float`, and yields the float routine. Any other channel type fails with the not-supported error naming that type. |
| `FindNonZeroExtensions.FindNonZeroFloat` | Source/Imaging/Imaging.Algorithms/Filters/FindNonZero.cs:79-107 | The nested row/column loops, with the row pointer advancing by the stride, return exactly the location and value projections of the view's scan. The two lists therefore have equal length and correspond index by index. |
| `FindNonZeroExtensions.SharedOutput.constructor` | Source/Imaging/Imaging.Algorithms/Filters/FindNonZero.cs:50-51 | Both shared lists start empty. |
| `FindNonZeroExtensions.SharedOutput.AppendPatch` | Source/Imaging/Imaging.Algorithms/Filters/FindNonZero.cs:61-70 | Appends the patch locations, each translated by the region's corner and in order, then the patch values. Nothing else changes. |
| `FindNonZeroExtensions.FindNonZero` | Source/Imaging/Imaging.Algorithms/Filters/FindNonZero.cs:43-77 | Fails with `NotSupported(channel)` exactly when the channel type is not `float`, before any region is scanned. Otherwise it returns equal-length lists. The i-th value is the non-zero element at the i-th in-bounds location. The lists are the projections of the merge of the regions' scans. |
| `FindNonZeroExtensions.FindNonZeroLocations` | Source/Imaging/Imaging.Algorithms/Filters/FindNonZero.cs:29-34 | The locations-only overload fails exactly as `FindNonZero` does. Otherwise it returns the merged locations. |
| `DirectoryCapture.Clamp` | Source/Vision/Vision/IO/ImageDirectoryCapture.cs:151 | The clamped position lies in `[0, length]`. It is the target when that is in range, 0 below the range and `length` above it. |
| `DirectoryCapture.SeekTarget` | Source/Vision/Vision/IO/ImageDirectoryCapture.cs:137-149 | The unclamped target is `offset` counted from 0 for Begin, from the cursor for Current and from `Length` for End. |
| `DirectoryCapture.SeekOriginsAgree` | Source/Vision/Vision/IO/ImageDirectoryCapture.cs:137-151 | From any position, seeking to a target from Begin, by the matching offset from Current, or by the matching offset from End all land on the same frame. |
| `DirectoryCapture.Tick` | Source/Vision/Vision/IO/ImageDirectoryCapture.cs:75-87 | A tick hands a file to the loader exactly when the cursor is before the end, and that file is `fileNames[position]`; the cursor then advances by one. Otherwise it emits the null frame and the cursor stays. From a valid cursor the next cursor is still at most `Length`. |
| `DirectoryCapture.PlaybackPastEnd` | Source/Vision/Vision/IO/ImageDirectoryCapture.cs:77-81 | With the cursor at or past the end, every tick emits the null frame and the cursor does not move. |
| `DirectoryCapture.PlaybackEmitsRemainingFiles` | Source/Vision/Vision/IO/ImageDirectoryCapture.cs:75-87 | From any valid position, successive ticks emit every remaining file once, in list order, and then only null frames. |
| `DirectoryCapture.ImageDirectoryCapture.constructor` | Source/Vision/Vision/IO/ImageDirectoryCapture.cs:24-48 | The file list is the one given at construction, and the cursor starts at 0. |
| `DirectoryCapture.ImageDirectoryCapture.Length` | Source/Vision/Vision/IO/ImageDirectoryCapture.cs:119-125 | `Length` is the number of files fixed at construction. |
| `DirectoryCapture.ImageDirectoryCapture.Position` | Source/Vision/Vision/IO/ImageDirectoryCapture.cs:127-133 | `Position` is the cursor. |
| `DirectoryCapture.ImageDirectoryCapture.Seek` | Source/Vision/Vision/IO/ImageDirectoryCapture.cs:135-153 | The new cursor is the target clamped to `[0, Length]`. The target is `offset` from Begin, `Position + offset` from Current and `Length + offset` from End. Seek returns the new cursor, and the cursor invariant holds afterwards. |
| `DirectoryCapture.ImageDirectoryCapture.Stop` | Source/Vision/Vision/IO/ImageDirectoryCapture.cs:69-73 | The cursor is reset to 0. The file list, a constant, is unchanged. |
| `DirectoryCapture.ImageDirectoryCapture.TimerElapsed` | Source/Vision/Vision/IO/ImageDirectoryCapture.cs:75-87 | At or past the end, a tick emits the null frame and leaves the cursor. Otherwise it hands `fileNames[currentFrame]` to the loader and advances the cursor by exactly one, so the cursor never exceeds `Length`. |
| `DirectoryCapture.ImageDirectoryCapture.CurrentImageName` | Source/Vision/Vision/IO/ImageDirectoryCapture.cs:155-158 | It yields `fileNames[Position]` exactly when `Position < Length`. At `Position == Length` the array access fails. |
| `DirectoryCapture.SeekDefaultIsRelative` | Source/Vision/Vision/IO/ImageDirectoryCapture.cs:135 | A seek that omits the origin uses Current: the cursor moves by `offset` from where it was, clamped to `[0, Length]`. |
| `DirectoryCapture.SeekToEndHasNoName` | Source/Vision/Vision/IO/ImageDirectoryCapture.cs:146-158 | Seeking by 0 from End is valid, yet it leaves no current image name. |

## Left out

- The parallel processor, its partitioning policy and the locks are not modelled. Regions are processed one after another in the order of a given list. So the output order across regions is that list's order, while in the source it depends on scheduling. The partition theorems are stated as sets and multisets for that reason.
- Floating point is not modelled: no `-0.0` or NaN. Values are `int` with an exact zero test.
- Unsafe pointer arithmetic is not modelled. The byte stride is modelled as a stride in elements.
- `IImage`, `GetSubRect` internals and `ColorInfo` are not modelled. An image is a flat `array<int>` plus a `Layout`, and its channel type is a parameter.
- An extraction failure in one region cannot happen in the model, because every view in it fits the buffer. Aborting the scan on such a failure is therefore not modelled.
- The `as IList<TDepth>` cast of the value patch is not modelled. It could only fail for a non-`float` `TDepth`, which the registry check already refuses.
- A second registration of the same channel type would throw. The static constructor makes only one registration, so this is not modelled.
- `System.Timers.Timer`, `Start`, `Pause`, `Resume`, `CanPause`, `Dispose`, the finalizer and the frame delay are not modelled. Only the tick's own effect on the cursor is modelled; the next line says what the timer's threading adds.
- DirectoryCapture.ImageDirectoryCapture.TimerElapsed: assumes ticks that run one at a time, atomically with respect to `Seek` and `Stop`, and a loader and frame handler that always return. `System.Timers.Timer` raises `Elapsed` on thread-pool threads, so in the source a tick can overlap another tick or a `Seek`/`Stop` on the unsynchronised `currentFrame`: a seek to the end between the test at ImageDirectoryCapture.cs:77 and the read at :83 makes :83 index `fileNames[Length]`. If `loader` or `OnVideoFrame` throws at :83-84, the increment at :86 is skipped and the next tick retries the same file. `Tick`, `PlaybackPastEnd` and `PlaybackEmitsRemainingFiles` rest on the same assumptions.
- Directory enumeration, the extension filter, `NaturalSortComparer`, the `loader` callback, `OnVideoFrame`, `CaptureBase` and `VideoSize` are not modelled. They are I/O or code outside these files. The file list is a constructor argument, and a tick returns the name it would hand to the loader.
- DirectoryCapture.ImageDirectoryCapture.Stop: does not model the `NullReferenceException` that `timer.Stop()` raises when `Stop` is called before `Start`, because the timer is left out.
- DirectoryCapture.ImageDirectoryCapture.Seek: does not model `long` overflow in `Position + offset` or `Length + offset`, because integers here are unbounded. It also does not model a `SeekOrigin` value outside Begin, Current and End, which the source would treat as target 0.

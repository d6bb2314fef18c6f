/** The activity view (frontend/src/components/ActivityChart.tsx): which of the three branches
    renders, the chart series built from the segment efforts, and the minutes/seconds split of
    the moving time. The fetch that fills the component's state is not part of this model; its
    result is an input. */
module ActivityChart {
  import opened Js

  /** Field types follow the client's `StravaSegment` / `StravaActivity` declarations; lengths,
      grades and elevations are reals, ids and times integers. */
  datatype Segment = Segment(
    id: int,
    name: string,
    distance: real,
    average_grade: real,
    elevation_high: real,
    elevation_low: real,
    total_elevation_gain: real,
    elapsed_time: int)

  datatype SegmentEffort = SegmentEffort(segment: Segment, elapsed_time: int, moving_time: int)

  datatype Activity = Activity(
    id: int,
    name: string,
    distance: real,
    moving_time: int,
    elapsed_time: int,
    total_elevation_gain: real,
    segment_efforts: seq<SegmentEffort>)

  /** A Chart.js dataset: its `label` (here `legend`) and its `data` points. */
  datatype Dataset = Dataset(legend: string, points: seq<real>)

  /** The `data` prop of the line chart. */
  datatype ChartData = ChartData(labels: seq<string>, datasets: seq<Dataset>)

  /** The chart series: one label and one point per effort, in the efforts' order; the first
      dataset is the elevation gain, the second the average grade of the effort's segment. */
  function Series(efforts: seq<SegmentEffort>): (d: ChartData)
    ensures |d.labels| == |efforts| && |d.datasets| == 2
    ensures d.datasets[0].legend == "Elevation Profile" && d.datasets[1].legend == "Grade"
    ensures |d.datasets[0].points| == |efforts| && |d.datasets[1].points| == |efforts|
    ensures forall i :: 0 <= i < |efforts| ==>
      && d.labels[i] == efforts[i].segment.name
      && d.datasets[0].points[i] == efforts[i].segment.total_elevation_gain
      && d.datasets[1].points[i] == efforts[i].segment.average_grade
  {
    ChartData(
      ArrayMap((e: SegmentEffort) => e.segment.name, efforts),
      [ Dataset("Elevation Profile", ArrayMap((e: SegmentEffort) => e.segment.total_elevation_gain, efforts)),
        Dataset("Grade", ArrayMap((e: SegmentEffort) => e.segment.average_grade, efforts)) ])
  }

  /** The series of a concatenation are the concatenations of the series: an effort's point
      depends on that effort alone, and the order is kept. */
  lemma {:induction false} SeriesAppend(xs: seq<SegmentEffort>, ys: seq<SegmentEffort>)
    ensures Series(xs + ys).labels == Series(xs).labels + Series(ys).labels
    ensures Series(xs + ys).datasets[0].points == Series(xs).datasets[0].points + Series(ys).datasets[0].points
    ensures Series(xs + ys).datasets[1].points == Series(xs).datasets[1].points + Series(ys).datasets[1].points
  {
    ArrayMapAppend((e: SegmentEffort) => e.segment.name, xs, ys);
    ArrayMapAppend((e: SegmentEffort) => e.segment.total_elevation_gain, xs, ys);
    ArrayMapAppend((e: SegmentEffort) => e.segment.average_grade, xs, ys);
  }

  /** `Math.floor(t / 60)` and `t % 60`. Dafny's `/` by a positive divisor already rounds
      down; JavaScript's `%` takes the sign of `t`, unlike Dafny's. */
  function MovingTime(t: int): (split: (int, int))
  {
    (t / 60, if t >= 0 then t % 60 else -((-t) % 60))
  }

  /** For a non-negative moving time the split is the unique minutes/seconds decomposition. */
  lemma MovingTimeSplit(t: int, minutes: int, seconds: int)
    requires t >= 0
    ensures var (m, s) := MovingTime(t); 60 * m + s == t && 0 <= s < 60
    ensures 60 * minutes + seconds == t && 0 <= seconds < 60 ==> MovingTime(t) == (minutes, seconds)
  {
  }

  /** A negative moving time that is not a whole number of minutes is not split into parts
      that add back up: floor rounds the minutes down while the remainder keeps the sign. */
  lemma MovingTimeNegative(t: int)
    requires t < 0 && t % 60 != 0
    ensures var (m, s) := MovingTime(t); 60 * m + s != t && -60 < s < 0
  {
  }

  /** What the component renders. */
  datatype View =
    | ErrorMessage(message: string)
    | Loading
    | Chart(name: string, minutes: int, seconds: int, elevationGain: real, data: ChartData)

  /** The render branch: a truthy error message wins, then a missing activity shows the
      loading text, and only then is the chart drawn. */
  function Render(error: Option<string>, activity: Option<Activity>): (v: View)
    ensures v.ErrorMessage? <==> error.Some? && error.value != ""
    ensures v.ErrorMessage? ==> v.message == error.value
    ensures v.Loading? <==> !(error.Some? && error.value != "") && activity.None?
    ensures v.Chart? ==>
      && activity.Some?
      && v.name == activity.value.name
      && (v.minutes, v.seconds) == MovingTime(activity.value.moving_time)
      && v.elevationGain == activity.value.total_elevation_gain
      && v.data == Series(activity.value.segment_efforts)
  {
    if error.Some? && error.value != "" then ErrorMessage(error.value)
    else if activity.None? then Loading
    else
      var a := activity.value;
      var (m, s) := MovingTime(a.moving_time);
      Chart(a.name, m, s, a.total_elevation_gain, Series(a.segment_efforts))
  }
}
